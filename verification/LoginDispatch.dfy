/**
 handler_fire_stanza and the list operations of src/xmpp-handler.c on a connection object: the
 list is walked with a saved successor while the callbacks change it.
 */
module LoginDispatch {
  import opened Wrappers
  import opened Stanza
  import opened StanzaBuilder
  import opened Login
  import opened LoginCalls
  import opened LoginInvariant
  import opened LoginSteps

  /** Where the entry of a handler function is. */
  function IndexOf(handlers: seq<Handler>, fn: Fn): (k: nat)
    requires Installed(handlers, fn)
    ensures k < |handlers| && handlers[k].fn == fn
  {
    if handlers[0].fn == fn then 0
    else
      assert Installed(handlers[1..], fn) by {
        var i :| 0 <= i < |handlers| && handlers[i].fn == fn;
        assert handlers[1..][i - 1].fn == fn;
      }
      1 + IndexOf(handlers[1..], fn)
  }

  /** pos->next: the entry after `fn`, or None for the list head. */
  function Successor(handlers: seq<Handler>, fn: Fn): Option<Fn>
    requires Installed(handlers, fn)
  {
    var k := IndexOf(handlers, fn) + 1;
    if k < |handlers| then Some(handlers[k].fn) else None
  }

  lemma {:induction false} IndexIs(handlers: seq<Handler>, k: nat)
    requires Distinct(handlers) && k < |handlers|
    ensures Installed(handlers, handlers[k].fn) && IndexOf(handlers, handlers[k].fn) == k
  {
    var i := IndexOf(handlers, handlers[k].fn);
    assert handlers[i].fn == handlers[k].fn;
  }

  /** Removing the entry at `k` from a list without repetitions. */
  lemma {:induction false} ExceptAt(handlers: seq<Handler>, k: nat)
    requires Distinct(handlers) && k < |handlers|
    ensures Except(handlers, handlers[k].fn) == handlers[..k] + handlers[k + 1..]
  {
    if k == 0 {
      ExceptNone(handlers[1..], handlers[0].fn);
    } else {
      ExceptAt(handlers[1..], k - 1);
      assert handlers[1..][k - 1] == handlers[k];
      assert [handlers[0]] + handlers[1..][..k - 1] == handlers[..k];
      assert handlers[1..][k..] == handlers[k + 1..];
    }
  }

  predicate AllEnabled(handlers: seq<Handler>, enabled: bool) {
    forall k :: 0 <= k < |handlers| ==> handlers[k].enabled == enabled
  }

  /** The handlers of the walk that stay on the list, in order. */
  function Kept(c: Conn, order: seq<Handler>, s: Node, env: Env): seq<Handler>
    decreases |order|
  {
    if order == [] then []
    else
      var h := order[0];
      if Gated(c, h.fn) || !Matches(h, s) then [h] + Kept(c, order[1..], s, env)
      else
        (if Call(c, h.fn, s, env).1 then [h] else []) + Kept(Visit(c, h.fn, s, env), order[1..], s, env)
  }

  /** The list part of one call in the middle of a walk. */
  lemma {:induction false} VisitList(c: Conn, done: seq<Handler>, todo: seq<Handler>, added: seq<Handler>,
                                     s: Node, env: Env)
    requires c.lists.handlers == done + todo + added && todo != []
    requires Distinct(c.lists.handlers) && AllEnabled(added, false)
    ensures var v := Visit(c, todo[0].fn, s, env);
            var done' := done + if Call(c, todo[0].fn, s, env).1 then [todo[0]] else [];
            Distinct(v.lists.handlers)
            && exists added' :: v.lists.handlers == done' + todo[1..] + added' && AllEnabled(added', false)
                                && added <= added'
  {
    hide Call;
    var (r, again) := Call(c, todo[0].fn, s, env);
    CallGrows(c, todo[0].fn, s, env);
    var added' := r.lists.handlers[|done + todo|..];
    assert r.lists.handlers == done + todo + added';
    assert AllEnabled(added', false) && added <= added';
    assert todo == [todo[0]] + todo[1..];
    hide Distinct, AllEnabled, Except;
    if again {
      assert r.lists.handlers == done + [todo[0]] + todo[1..] + added';
    } else {
      ExceptMiddle(done, todo, added');
      ExceptIs(r.lists.handlers, todo[0].fn);
    }
  }

  lemma {:induction false} ExceptMiddle(done: seq<Handler>, todo: seq<Handler>, added: seq<Handler>)
    requires todo != [] && Distinct(done + todo + added)
    ensures Except(done + todo + added, todo[0].fn) == done + [] + todo[1..] + added
  {
    hide Except;
    var all, k := done + todo + added, |done|;
    assert all[k] == todo[0];
    ExceptAt(all, k);
    assert all[..k] + all[k + 1..] == done + [] + todo[1..] + added;
  }

  /**
   Main result about the ordinary phase: of the handlers listed when it starts, those whose
   call asked to end are gone and the others keep their order; what callbacks added stands
   behind them, not yet enabled; and no function is listed twice.
   */
  lemma {:induction false} RunOutcome(c: Conn, done: seq<Handler>, todo: seq<Handler>, added: seq<Handler>,
                                      s: Node, env: Env)
    returns (added': seq<Handler>)
    requires c.lists.handlers == done + todo + added
    requires Distinct(c.lists.handlers) && AllEnabled(added, false)
    ensures var r := RunHandlers(c, todo, s, env).lists.handlers;
            Distinct(r) && r == done + Kept(c, todo, s, env) + added'
    ensures AllEnabled(added', false) && added <= added'
    decreases |todo|
  {
    hide Visit, Call, Matches, Distinct;
    if todo == [] {
      added' := added;
      assert done + [] + added == c.lists.handlers;
    } else {
      var h, rest := todo[0], todo[1..];
      var skip := Gated(c, h.fn) || !Matches(h, s);
      var mine := if skip || Call(c, h.fn, s, env).1 then [h] else [];
      var v := if skip then c else Visit(c, h.fn, s, env);
      var more := added;
      if skip {
        assert c.lists.handlers == (done + [h]) + rest + added;
      } else {
        VisitList(c, done, todo, added, s, env);
        more :| v.lists.handlers == done + mine + rest + more && AllEnabled(more, false) && added <= more;
      }
      added' := RunOutcome(v, done + mine, rest, more, s, env);
      assert (done + mine) + Kept(v, rest, s, env) == done + (mine + Kept(v, rest, s, env));
    }
  }

  /** The entries still to be visited, seen from the cursor. */
  ghost predicate Cursor(handlers: seq<Handler>, pos: Option<Fn>,
                         done: seq<Handler>, todo: seq<Handler>, added: seq<Handler>) {
    && handlers == done + todo + added && Distinct(handlers)
    && AllEnabled(todo, true) && AllEnabled(added, false)
    && (todo != [] ==> pos == Some(todo[0].fn))
    && (todo == [] && pos.Some? ==> exists k :: 0 <= k < |added| && added[k].fn == pos.value)
  }

  lemma {:induction false} CursorIndex(handlers: seq<Handler>, pos: Option<Fn>,
                                       done: seq<Handler>, todo: seq<Handler>, added: seq<Handler>)
    requires Cursor(handlers, pos, done, todo, added) && pos.Some?
    ensures Installed(handlers, pos.value) && Distinct(handlers)
    ensures todo != [] ==> IndexOf(handlers, pos.value) == |done| && handlers[|done|] == todo[0] && todo[0].enabled
    ensures todo == [] ==> IndexOf(handlers, pos.value) >= |done|
                           && !handlers[IndexOf(handlers, pos.value)].enabled
  {
    if todo != [] {
      assert handlers[|done|] == todo[0];
      IndexIs(handlers, |done|);
    } else {
      var k :| 0 <= k < |added| && added[k].fn == pos.value;
      assert handlers[|done| + k] == added[k];
      IndexIs(handlers, |done| + k);
    }
  }

  lemma {:induction false} CursorStart(handlers: seq<Handler>)
    requires Distinct(handlers) && AllEnabled(handlers, true)
    ensures Cursor(handlers, if |handlers| > 0 then Some(handlers[0].fn) else None, [], handlers, [])
  {
    assert handlers == [] + handlers + [];
  }

  lemma {:induction false} CursorEnds(handlers: seq<Handler>, done: seq<Handler>, todo: seq<Handler>, added: seq<Handler>)
    requires Cursor(handlers, None, done, todo, added)
    ensures todo == []
  {
  }

  /** The calls of a walk whose first handler has been visited or skipped, and of an empty one. */
  lemma {:induction false} CalledOn(c: Conn, todo: seq<Handler>, called: seq<Fn>, s: Node, env: Env)
    ensures todo == [] ==> called + Called(c, todo, s, env) == called && RunHandlers(c, todo, s, env) == c
    ensures todo != [] ==>
              called + Called(c, todo, s, env)
              == if Gated(c, todo[0].fn) || !Matches(todo[0], s) then called + Called(c, todo[1..], s, env)
                 else (called + [todo[0].fn]) + Called(Visit(c, todo[0].fn, s, env), todo[1..], s, env)
  {
    hide Gated, Matches, Visit;
  }

  /** The saved successor is still right after the entry before it has been visited or skipped. */
  lemma {:induction false} CursorMoves(handlers: seq<Handler>, pos: Option<Fn>,
                                       done: seq<Handler>, todo: seq<Handler>, added: seq<Handler>,
                                       after: seq<Handler>, done': seq<Handler>, added': seq<Handler>)
    requires Cursor(handlers, pos, done, todo, added) && todo != []
    requires after == done' + todo[1..] + added' && Distinct(after)
    requires AllEnabled(added', false) && added <= added'
    ensures Installed(handlers, pos.value)
    ensures Cursor(after, Successor(handlers, pos.value), done', todo[1..], added')
  {
    CursorIndex(handlers, pos, done, todo, added);
    var k := |done| + 1;
    if |todo| > 1 {
      assert handlers[k] == todo[1];
    } else if k < |handlers| {
      assert handlers[k] == added[0] && added'[0] == added[0];
    }
  }

  /** Past the handlers of this stanza the cursor only passes over disabled ones. */
  lemma {:induction false} CursorPasses(handlers: seq<Handler>, pos: Option<Fn>,
                                        done: seq<Handler>, added: seq<Handler>)
    requires Cursor(handlers, pos, done, [], added) && pos.Some?
    ensures Installed(handlers, pos.value)
    ensures Cursor(handlers, Successor(handlers, pos.value), done, [], added)
  {
    CursorIndex(handlers, pos, done, [], added);
    var k := IndexOf(handlers, pos.value) + 1;
    if k < |handlers| {
      assert added[k - |done|] == handlers[k];
    }
  }

  /** One round of the walk on a handler this stanza is for. */
  ghost method WalkStep(c: Conn, pos: Option<Fn>, done: seq<Handler>, todo: seq<Handler>, added: seq<Handler>,
                        s: Node, env: Env)
    returns (done': seq<Handler>, todo': seq<Handler>, added': seq<Handler>)
    requires Cursor(c.lists.handlers, pos, done, todo, added) && todo != []
    ensures todo' == todo[1..]
    ensures Installed(c.lists.handlers, pos.value)
    ensures var c' := if !Gated(c, todo[0].fn) && Matches(todo[0], s) then Visit(c, todo[0].fn, s, env) else c;
            && Cursor(c'.lists.handlers, Successor(c.lists.handlers, pos.value), done', todo', added')
            && RunHandlers(c', todo', s, env) == RunHandlers(c, todo, s, env)
  {
    hide Visit, Call, Matches, Successor;
    todo' := todo[1..];
    assert todo == [todo[0]] + todo';
    if !Gated(c, todo[0].fn) && Matches(todo[0], s) {
      var c' := Visit(c, todo[0].fn, s, env);
      VisitList(c, done, todo, added, s, env);
      done' := done + if Call(c, todo[0].fn, s, env).1 then [todo[0]] else [];
      added' :| c'.lists.handlers == done' + todo' + added' && AllEnabled(added', false) && added <= added';
      CursorMoves(c.lists.handlers, pos, done, todo, added, c'.lists.handlers, done', added');
    } else {
      done', added' := done + [todo[0]], added;
      assert c.lists.handlers == done' + todo' + added';
      CursorMoves(c.lists.handlers, pos, done, todo, added, c.lists.handlers, done', added');
    }
  }

  lemma {:induction false} SuccessorIsLater(handlers: seq<Handler>, fn: Fn)
    requires Distinct(handlers) && Installed(handlers, fn)
    ensures Successor(handlers, fn).Some? ==>
              Installed(handlers, Successor(handlers, fn).value)
              && IndexOf(handlers, Successor(handlers, fn).value) == IndexOf(handlers, fn) + 1
  {
    var k := IndexOf(handlers, fn) + 1;
    if k < |handlers| {
      IndexIs(handlers, k);
    }
  }

  class Connection {
    var c: Conn

    constructor (jidHasNode: bool, storesIds: bool)
      ensures c == Start(jidHasNode, storesIds)
    {
      c := Start(jidHasNode, storesIds);
    }

    /** _check_handler_exist */
    method CheckHandlerExists(fn: Fn) returns (found: bool)
      ensures found == Installed(c.lists.handlers, fn)
    {
      var i := 0;
      while i < |c.lists.handlers|
        invariant 0 <= i <= |c.lists.handlers|
        invariant forall k :: 0 <= k < i ==> c.lists.handlers[k].fn != fn
      {
        if c.lists.handlers[i].fn == fn {
          return true;
        }
        i := i + 1;
      }
      return false;
    }

    /** _handler_add */
    method HandlerAdd(h: Handler)
      modifies this
      ensures c == AddHandler(old(c), h)
    {
      var found := CheckHandlerExists(h.fn);
      if found {
        return;
      }
      c := c.(lists := c.lists.(handlers := c.lists.handlers + [h.(enabled := false)]));
    }

    /** The loop over the mechanisms in _handle_features: the last word on each bit. */
    method ScanMechanisms(kids: seq<Node>) returns (digest: bool, plain: bool)
      ensures digest == exists k :: 0 <= k < |kids| && IsMechanism(kids[k], "DIGEST-MD5")
      ensures plain == exists k :: 0 <= k < |kids| && IsMechanism(kids[k], "PLAIN")
    {
      digest, plain := false, false;
      var i := 0;
      while i < |kids|
        invariant 0 <= i <= |kids|
        invariant digest == exists k :: 0 <= k < i && IsMechanism(kids[k], "DIGEST-MD5")
        invariant plain == exists k :: 0 <= k < i && IsMechanism(kids[k], "PLAIN")
      {
        NotBoth(kids[i]);
        if IsMechanism(kids[i], "PLAIN") {
          plain := true;
        } else if IsMechanism(kids[i], "DIGEST-MD5") {
          digest := true;
        }
        i := i + 1;
      }
    }

    /** The loop that activates the handlers this stanza is for. */
    method EnableHandlers()
      modifies this
      ensures c == Enable(old(c))
    {
      var i := 0;
      while i < |c.lists.handlers|
        invariant 0 <= i <= |c.lists.handlers| == |old(c.lists.handlers)|
        invariant c == old(c).(lists := old(c.lists).(handlers := c.lists.handlers))
        invariant forall k :: 0 <= k < |c.lists.handlers| ==>
                    c.lists.handlers[k] == if k < i then old(c.lists.handlers)[k].(enabled := true) else old(c.lists.handlers)[k]
      {
        var h := c.lists.handlers[i];
        c := c.(lists := c.lists.(handlers := c.lists.handlers[i := h.(enabled := true)]));
        i := i + 1;
      }
      assert c.lists.handlers == EnableAll(old(c.lists.handlers));
    }

    /** The safe walk over the list: the successor is saved before the callback runs. */
    method WalkHandlers(s: Node, env: Env) returns (ghost called: seq<Fn>)
      requires Distinct(c.lists.handlers) && AllEnabled(c.lists.handlers, true)
      modifies this
      ensures c == RunHandlers(old(c), old(c.lists.handlers), s, env)
      ensures called == Called(old(c), old(c.lists.handlers), s, env)
    {
      hide Visit, Call, Matches, Gated, Successor, Cursor, Called, RunHandlers, Distinct, AllEnabled, Installed, IndexOf;
      called := [];
      ghost var done: seq<Handler>, todo, added: seq<Handler> := [], c.lists.handlers, [];
      var pos := if |c.lists.handlers| > 0 then Some(c.lists.handlers[0].fn) else None;
      CursorStart(c.lists.handlers);
      assert [] + Called(c, todo, s, env) == Called(c, todo, s, env);
      while pos.Some?
        invariant Cursor(c.lists.handlers, pos, done, todo, added)
        invariant RunHandlers(c, todo, s, env) == RunHandlers(old(c), old(c.lists.handlers), s, env)
        invariant called + Called(c, todo, s, env) == Called(old(c), old(c.lists.handlers), s, env)
        decreases |todo|, if todo != [] || pos.None? then 0
                          else |c.lists.handlers| - Position(c.lists.handlers, pos)
      {
        ghost var was, at := c, pos;
        CursorIndex(c.lists.handlers, pos, done, todo, added);
        CalledOn(c, todo, called, s, env);
        var h := c.lists.handlers[IndexOf(c.lists.handlers, pos.value)];
        var next := Successor(c.lists.handlers, pos.value);
        if h.enabled && !Gated(c, h.fn) && Matches(h, s) {
          called := called + [h.fn];
          c := Visit(c, h.fn, s, env);
        }
        pos := next;
        if todo != [] {
          done, todo, added := WalkStep(was, at, done, todo, added, s, env);
        } else {
          CursorPasses(was.lists.handlers, at, done, added);
          SuccessorIsLater(was.lists.handlers, at.value);
        }
      }
      CursorEnds(c.lists.handlers, done, todo, added);
      CalledOn(c, todo, called, s, env);
    }

    /** The walk over the handlers of one id; a list that becomes empty is dropped under way. */
    method WalkIds(id: string, s: Node, env: Env) returns (ghost called: seq<Fn>)
      requires id in c.lists.ids && IdList(id, c.lists.ids[id])
      modifies this
      ensures c == RunIds(old(c), id, old(c.lists.ids[id]), s, env)
      ensures called == CalledById(old(c), id, old(c.lists.ids[id]), s, env)
    {
      hide VisitId, Call, Gated, RunIds, CalledById, IdCursor, IdList, IdNext;
      called := [];
      ghost var done: seq<Fn>, todo, whole := [], c.lists.ids[id], RunIds(c, id, c.lists.ids[id], s, env);
      var pos := if |c.lists.ids[id]| > 0 then Some(c.lists.ids[id][0]) else None;
      ghost var calls := CalledById(c, id, todo, s, env);
      IdCursorStart(c.lists.ids, id);
      assert [] + calls == calls;
      while pos.Some?
        invariant IdCursor(c.lists.ids, id, pos, done, todo)
        invariant RunIds(c, id, todo, s, env) == whole
        invariant called + CalledById(c, id, todo, s, env) == calls
        decreases |todo|
      {
        ghost var was, at := c, pos;
        IdCursorAt(c.lists.ids, id, pos, done, todo);
        CalledByIdOn(c, id, todo, called, s, env);
        var next := IdNext(c.lists.ids[id], pos.value);
        if !Gated(c, pos.value) {
          called := called + [pos.value];
          c := VisitId(c, id, pos.value, s, env);
        }
        pos := next;
        done, todo := IdStep(was, id, at, done, todo, s, env);
      }
      IdCursorEnds(c.lists.ids, id, done, todo);
      RunIdsOn(c, id, todo, s, env);
      CalledByIdOn(c, id, todo, called, s, env);
    }

    /** handler_fire_stanza: the handlers of the id, then the listed ones. */
    method FireStanza(s: Node, env: Env) returns (ghost byId: seq<Fn>, ghost called: seq<Fn>)
      requires Inv(c)
      modifies this
      ensures c == Fire(old(c), s, env) && Inv(c)
      ensures byId == CalledForId(old(c), s, env) && called == CalledFor(old(c), s, env)
    {
      byId := [];
      hide RunIds, RunHandlers, StageRules, Recorded, SafeWire, BIND_ID, SESSION_ID;
      FireKeepsInv(c, s, env);
      FireIdsKeepsInv(c, s, env);
      var id := Attribute(s, "id");
      if id.Some? && id.value in c.lists.ids {
        assert IdList(id.value, c.lists.ids[id.value]);
        byId := WalkIds(id.value, s, env);
      }
      EnableHandlers();
      called := WalkHandlers(s, env);
    }
  }

  /** The successor in the list of an id. */
  function IdNext(fns: seq<Fn>, fn: Fn): Option<Fn>
    requires fn in fns
  {
    if fns[0] == fn then (if |fns| > 1 then Some(fns[1]) else None) else IdNext(fns[1..], fn)
  }

  lemma {:induction false} IdNextIs(fns: seq<Fn>, k: nat)
    requires DistinctFns(fns) && k < |fns|
    ensures IdNext(fns, fns[k]) == if k + 1 < |fns| then Some(fns[k + 1]) else None
  {
    if k > 0 {
      IdNextIs(fns[1..], k - 1);
      assert fns[1..][k - 1] == fns[k];
    }
  }

  ghost predicate IdCursor(ids: map<string, seq<Fn>>, id: string, pos: Option<Fn>, done: seq<Fn>, todo: seq<Fn>) {
    if todo == [] then pos == None
    else id in ids && ids[id] == done + todo && IdList(id, ids[id]) && pos == Some(todo[0])
  }

  lemma {:induction false} IdCursorStart(ids: map<string, seq<Fn>>, id: string)
    requires id in ids && IdList(id, ids[id])
    ensures IdCursor(ids, id, if |ids[id]| > 0 then Some(ids[id][0]) else None, [], ids[id])
  {
    assert ids[id] == [] + ids[id];
  }

  lemma {:induction false} IdCursorIs(ids: map<string, seq<Fn>>, id: string, pos: Option<Fn>, done: seq<Fn>, todo: seq<Fn>)
    requires todo != [] ==> id in ids && ids[id] == done + todo && IdList(id, done + todo)
    requires pos == if todo != [] then Some(todo[0]) else None
    ensures IdCursor(ids, id, pos, done, todo)
  {
  }

  lemma {:induction false} IdCursorEnds(ids: map<string, seq<Fn>>, id: string, done: seq<Fn>, todo: seq<Fn>)
    requires IdCursor(ids, id, None, done, todo)
    ensures todo == []
  {
  }

  /** What the cursor knows of the list, and the successor to be saved. */
  lemma {:induction false} IdCursorAt(ids: map<string, seq<Fn>>, id: string, pos: Option<Fn>, done: seq<Fn>, todo: seq<Fn>)
    requires IdCursor(ids, id, pos, done, todo) && pos.Some?
    ensures todo != [] && todo[0] == pos.value && id in ids && ids[id] == done + todo && IdList(id, done + todo)
    ensures pos.value in ids[id]
    ensures IdNext(ids[id], pos.value) == if |todo| > 1 then Some(todo[1]) else None
  {
    assert (done + todo)[|done|] == todo[0];
    IdNextIs(ids[id], |done|);
    assert |todo| > 1 ==> (done + todo)[|done| + 1] == todo[1];
  }

  lemma {:induction false} RunIdsOn(c: Conn, id: string, todo: seq<Fn>, s: Node, env: Env)
    ensures RunIds(c, id, todo, s, env)
         == if todo == [] then c
            else RunIds(if Gated(c, todo[0]) then c else VisitId(c, id, todo[0], s, env), id, todo[1..], s, env)
  {
    hide VisitId, Gated;
  }

  lemma {:induction false} CalledByIdOn(c: Conn, id: string, todo: seq<Fn>, called: seq<Fn>, s: Node, env: Env)
    ensures todo == [] ==> called + CalledById(c, id, todo, s, env) == called
    ensures todo != [] ==>
              called + CalledById(c, id, todo, s, env)
              == if Gated(c, todo[0]) then called + CalledById(c, id, todo[1..], s, env)
                 else (called + [todo[0]]) + CalledById(VisitId(c, id, todo[0], s, env), id, todo[1..], s, env)
  {
    hide VisitId, Gated;
  }

  /** A call by id does not touch the list of that id. */
  lemma {:induction false} CallKeepsIdList(c: Conn, id: string, fn: Fn, s: Node, env: Env)
    requires IdFn(id, fn) && id in c.lists.ids
    ensures var r := Call(c, fn, s, env).0; id in r.lists.ids && r.lists.ids[id] == c.lists.ids[id]
  {
    assert |BIND_ID| != |SESSION_ID|;
    hide BIND_ID, SESSION_ID, ExtendAll, Attribute;
  }

  lemma {:induction false} ExceptFnAt(fns: seq<Fn>, k: nat)
    requires DistinctFns(fns) && k < |fns|
    ensures ExceptFn(fns, fns[k]) == fns[..k] + fns[k + 1..]
  {
    if k > 0 {
      ExceptFnAt(fns[1..], k - 1);
      assert fns[1..][k - 1] == fns[k] && fns[k] != fns[0];
      assert [fns[0]] + fns[1..][..k - 1] == fns[..k];
      assert fns[1..][k..] == fns[k + 1..];
    }
  }

  /** The list of an id after a call by that id; an emptied one is no longer in the table. */
  ghost predicate HasList(ids: map<string, seq<Fn>>, id: string, fns: seq<Fn>) {
    if fns == [] then id !in ids else id in ids && ids[id] == fns && IdList(id, fns)
  }

  lemma {:induction false} VisitIdList(c: Conn, id: string, done: seq<Fn>, todo: seq<Fn>, s: Node, env: Env)
    requires id in c.lists.ids && c.lists.ids[id] == done + todo && todo != [] && IdList(id, done + todo)
    ensures HasList(VisitId(c, id, todo[0], s, env).lists.ids, id,
                    done + (if Call(c, todo[0], s, env).1 then [todo[0]] else []) + todo[1..])
  {
    hide Call, BIND_ID, SESSION_ID, IdList, ExceptFn;
    WithoutFirst(id, done, todo);
    CallKeepsIdList(c, id, todo[0], s, env);
  }

  /** The list of an id with the first of `todo` taken out, or passed over. */
  lemma {:induction false} WithoutFirst(id: string, done: seq<Fn>, todo: seq<Fn>)
    requires todo != [] && IdList(id, done + todo)
    ensures IdFn(id, todo[0]) && todo[0] in done + todo
    ensures ExceptFn(done + todo, todo[0]) == done + todo[1..] && IdList(id, done + todo[1..])
    ensures done + [todo[0]] + todo[1..] == done + todo && done + [] + todo[1..] == done + todo[1..]
  {
    var fns := done + todo;
    assert fns[|done|] == todo[0];
    ExceptFnAt(fns, |done|);
    assert fns[..|done|] + fns[|done| + 1..] == done + todo[1..];
    ExceptFnIs(fns, todo[0]);
    forall k | 0 <= k < |done + todo[1..]|
      ensures IdFn(id, (done + todo[1..])[k])
    {
      assert (done + todo[1..])[k] == if k < |done| then fns[k] else fns[k + 1];
    }
  }

  /** One round of the walk over the handlers of one id. */
  lemma {:induction false} IdStep(c: Conn, id: string, pos: Option<Fn>, done: seq<Fn>, todo: seq<Fn>, s: Node, env: Env)
    returns (done': seq<Fn>, todo': seq<Fn>)
    requires IdCursor(c.lists.ids, id, pos, done, todo) && pos.Some?
    ensures todo != [] && todo[0] == pos.value && todo' == todo[1..]
    ensures id in c.lists.ids && pos.value in c.lists.ids[id]
    ensures var c' := if Gated(c, pos.value) then c else VisitId(c, id, pos.value, s, env);
            && IdCursor(c'.lists.ids, id, IdNext(c.lists.ids[id], pos.value), done', todo')
            && RunIds(c', id, todo', s, env) == RunIds(c, id, todo, s, env)
  {
    hide VisitId, Call, Gated, RunIds, IdCursor, IdList, IdNext;
    IdCursorAt(c.lists.ids, id, pos, done, todo);
    RunIdsOn(c, id, todo, s, env);
    todo' := todo[1..];
    var next := IdNext(c.lists.ids[id], pos.value);
    if !Gated(c, pos.value) {
      VisitIdList(c, id, done, todo, s, env);
      done' := done + if Call(c, pos.value, s, env).1 then [pos.value] else [];
      IdCursorIs(VisitId(c, id, pos.value, s, env).lists.ids, id, next, done', todo');
    } else {
      done' := done + [pos.value];
      assert done + todo == done' + todo';
      IdCursorIs(c.lists.ids, id, next, done', todo');
    }
  }

  lemma {:induction false} FireIdsKeepsInv(c: Conn, s: Node, env: Env)
    requires Inv(c)
    ensures Inv(FireIds(c, s, env))
  {
    hide RunIds, StageRules, Recorded, SafeWire, BIND_ID, SESSION_ID;
    var id := Attribute(s, "id");
    if id.Some? && id.value in c.lists.ids {
      assert IdList(id.value, c.lists.ids[id.value]);
      RunIdsKeepsInv(c, id.value, c.lists.ids[id.value], s, env);
    }
  }

  lemma {:induction false} NotBoth(n: Node)
    ensures !(IsMechanism(n, "PLAIN") && IsMechanism(n, "DIGEST-MD5"))
  {
  }

  ghost function Position(handlers: seq<Handler>, pos: Option<Fn>): nat {
    if pos.Some? && Installed(handlers, pos.value) then IndexOf(handlers, pos.value) else 0
  }
}
