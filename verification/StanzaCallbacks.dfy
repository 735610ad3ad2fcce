/**
 Which callbacks of src/xmpp-parser-expat.c a sequence of events leads to, told from the events
 alone: the depth at which each stands decides.
 */
module StanzaCallbacks {
  import opened Wrappers
  import opened Stanza
  import opened StanzaReader
  import opened StanzaBuilder

  /** The depth before event `k`, that of the first being `depth`. */
  function DepthAt(depth: nat, events: seq<Event>, k: nat): int
    requires k <= |events|
  {
    if k == 0 then depth
    else
      DepthAt(depth, events, k - 1)
      + (match events[k - 1] case Start(_, _) => 1 case End(_) => -1 case Chars(_) => 0)
  }

  /** The places at which a stream starts: start tags outside everything. */
  function StreamStarts(depth: nat, events: seq<Event>): set<nat> {
    set k: nat | k < |events| && events[k].Start? && DepthAt(depth, events, k) == 0
  }

  /** The places at which it ends: end tags that lead outside everything. */
  function StreamEnds(depth: nat, events: seq<Event>): set<nat> {
    set k: nat | k < |events| && events[k].End? && DepthAt(depth, events, k + 1) == 0
  }

  /** The places at which a stanza is complete: end tags that lead back into the stream itself. */
  function StanzaEnds(depth: nat, events: seq<Event>): set<nat> {
    set k: nat | k < |events| && events[k].End? && DepthAt(depth, events, k + 1) == 1
  }

  /** The places of character data outside every stanza. */
  function StrayData(depth: nat, events: seq<Event>): set<nat> {
    set k: nat | k < |events| && events[k].Chars? && DepthAt(depth, events, k) < 2
  }

  lemma {:induction false} DepthOfPart(depth: nat, events: seq<Event>, n: nat, k: nat)
    requires k <= n <= |events|
    ensures DepthAt(depth, events[..n], k) == DepthAt(depth, events, k)
  {
    if k > 0 {
      DepthOfPart(depth, events, n, k - 1);
    }
  }

  /** Whatever is chosen by a rule about each place grows by the last place if the rule takes it. */
  lemma {:induction false} OneMore(a: set<nat>, b: set<nat>, n: nat, last: bool)
    requires forall k: nat :: k in b <==> (k < n && k in a) || (k == n && last)
    requires forall k: nat :: k in a ==> k < n
    ensures |b| == |a| + if last then 1 else 0
  {
    if last {
      assert b == a + {n};
    } else {
      assert b == a;
    }
  }

  /** The four sets for one event more at the end. */
  lemma {:induction false} LastEvent(depth: nat, events: seq<Event>)
    requires events != []
    ensures var n, e, d := |events| - 1, events[|events| - 1], DepthAt(depth, events, |events| - 1);
            var before := events[..n];
            && |StreamStarts(depth, events)| == |StreamStarts(depth, before)| + (if e.Start? && d == 0 then 1 else 0)
            && |StreamEnds(depth, events)| == |StreamEnds(depth, before)| + (if e.End? && d == 1 then 1 else 0)
            && |StanzaEnds(depth, events)| == |StanzaEnds(depth, before)| + (if e.End? && d == 2 then 1 else 0)
            && |StrayData(depth, events)| == |StrayData(depth, before)| + (if e.Chars? && d < 2 then 1 else 0)
  {
    var n, e, d := |events| - 1, events[|events| - 1], DepthAt(depth, events, |events| - 1);
    var before := events[..n];
    forall k: nat | k <= n
      ensures DepthAt(depth, before, k) == DepthAt(depth, events, k)
    {
      DepthOfPart(depth, events, n, k);
    }
    assert DepthAt(depth, events, n + 1) == d + (match e case Start(_, _) => 1 case End(_) => -1 case Chars(_) => 0);
    hide DepthAt;
    OneMore(StreamStarts(depth, before), StreamStarts(depth, events), n, e.Start? && d == 0);
    OneMore(StreamEnds(depth, before), StreamEnds(depth, events), n, e.End? && d == 1);
    OneMore(StanzaEnds(depth, before), StanzaEnds(depth, events), n, e.End? && d == 2);
    OneMore(StrayData(depth, before), StrayData(depth, events), n, e.Chars? && d < 2);
  }

  lemma {:induction false} BalancedPart(depth: nat, events: seq<Event>, last: Event)
    requires Balanced(depth, events + [last])
    ensures Balanced(depth, events) && DepthAt(depth, events, |events|) >= 0
    ensures last.End? ==> DepthAt(depth, events, |events|) > 0
    decreases |events|
  {
    if events != [] {
      assert (events + [last])[1..] == events[1..] + [last];
      var next: int := match events[0] case Start(_, _) => depth + 1 case End(_) => depth - 1 case Chars(_) => depth;
      BalancedPart(next, events[1..], last);
      DepthShift(depth, events, next, |events|);
    }
  }

  lemma {:induction false} DepthShift(depth: nat, events: seq<Event>, next: nat, k: nat)
    requires 0 < k <= |events|
    requires next == depth + (match events[0] case Start(_, _) => 1 case End(_) => -1 case Chars(_) => 0)
    ensures DepthAt(depth, events, k) == DepthAt(next, events[1..], k - 1)
  {
    if k > 1 {
      DepthShift(depth, events, next, k - 1);
    } else {
      assert DepthAt(depth, events, 0) == depth;
    }
  }

  lemma {:induction false} OnEventsLast(st: State, events: seq<Event>, last: Event)
    requires Sound(st) && Balanced(st.depth, events + [last])
    ensures Balanced(st.depth, events) && (last.End? ==> OnEvents(st, events).depth > 0)
    ensures OnEvents(st, events + [last]) == OnEvent(OnEvents(st, events), last)
    decreases |events|
  {
    hide OnStart, OnEnd, OnChars, Sound;
    if events == [] {
      assert ([] + [last])[1..] == [];
    } else {
      assert (events + [last])[1..] == events[1..] + [last];
      EventDepth(st, events[0]);
      OnEventsLast(OnEvent(st, events[0]), events[1..], last);
    }
  }

  lemma {:induction false} EventDepth(st: State, e: Event)
    requires Sound(st) && (e.End? ==> st.depth > 0)
    ensures OnEvent(st, e).depth == st.depth + (match e case Start(_, _) => 1 case End(_) => -1 case Chars(_) => 0)
  {
  }

  /** The names of the elements at some places, in order. */
  function NamesAt(places: set<nat>, events: seq<Event>): seq<string>
    decreases |events|
  {
    if events == [] then []
    else
      var n := |events| - 1;
      NamesAt(places, events[..n]) + (if n in places && events[n].Start? then [LocalName(events[n].name)] else [])
  }

  lemma {:induction false} NamesOnly(a: set<nat>, b: set<nat>, events: seq<Event>)
    requires forall k: nat :: k < |events| ==> (k in a <==> k in b)
    ensures NamesAt(a, events) == NamesAt(b, events)
    decreases |events|
  {
    if events != [] {
      NamesOnly(a, b, events[..|events| - 1]);
    }
  }

  /**
   Main result: from any state, and so from a new parser, the callbacks are those of the events:
   one start for each start tag outside everything, with its local name; one end for each end tag that leads
   there; one stanza for each end tag that leads back into the stream; one error for each piece of
   character data outside every stanza.
   */
  lemma {:induction false} CallbacksAreThoseOfEvents(st: State, events: seq<Event>)
    requires Sound(st) && Balanced(st.depth, events)
    ensures var r := OnEvents(st, events);
            && r.depth == DepthAt(st.depth, events, |events|)
            && r.starts == st.starts + NamesAt(StreamStarts(st.depth, events), events)
            && r.ends == st.ends + |StreamEnds(st.depth, events)|
            && |r.fired| == |st.fired| + |StanzaEnds(st.depth, events)|
            && r.errors == st.errors + |StrayData(st.depth, events)|
    decreases |events|
  {
    hide StreamStarts, StreamEnds, StanzaEnds, StrayData, NamesAt, OnEvent, Sound, DepthAt;
    if events == [] {
      NoCallbacks(st.depth);
    } else {
      var before, last := events[..|events| - 1], events[|events| - 1];
      assert events == before + [last];
      BalancedPart(st.depth, before, last);
      OnEventsLast(st, before, last);
      CallbacksAreThoseOfEvents(st, before);
      hide OnEvents, Balanced;
      LastEvent(st.depth, events);
      LastDepth(st.depth, events);
      LastNames(st.depth, events);
      OneCallback(OnEvents(st, before), last);
    }
  }

  lemma {:induction false} NoCallbacks(depth: nat)
    ensures DepthAt(depth, [], 0) == depth && NamesAt(StreamStarts(depth, []), []) == []
    ensures |StreamEnds(depth, [])| == |StanzaEnds(depth, [])| == |StrayData(depth, [])| == 0
  {
    assert StreamEnds(depth, []) == {} && StanzaEnds(depth, []) == {} && StrayData(depth, []) == {};
  }

  lemma {:induction false} LastDepth(depth: nat, events: seq<Event>)
    requires events != []
    ensures var n, e := |events| - 1, events[|events| - 1];
            && DepthAt(depth, events[..n], n) == DepthAt(depth, events, n)
            && DepthAt(depth, events, n + 1)
               == DepthAt(depth, events, n) + (match e case Start(_, _) => 1 case End(_) => -1 case Chars(_) => 0)
  {
    DepthOfPart(depth, events, |events| - 1, |events| - 1);
  }

  lemma {:induction false} LastNames(depth: nat, events: seq<Event>)
    requires events != []
    ensures var n, e := |events| - 1, events[|events| - 1];
            NamesAt(StreamStarts(depth, events), events)
            == NamesAt(StreamStarts(depth, events[..n]), events[..n])
               + (if e.Start? && DepthAt(depth, events, n) == 0 then [LocalName(e.name)] else [])
  {
    var n := |events| - 1;
    forall k: nat | k < n
      ensures k in StreamStarts(depth, events) <==> k in StreamStarts(depth, events[..n])
    {
      DepthOfPart(depth, events, n, k);
    }
    NamesOnly(StreamStarts(depth, events), StreamStarts(depth, events[..n]), events[..n]);
  }

  /** One event: what it adds, by the depth it is met at. */
  lemma {:induction false} OneCallback(st: State, e: Event)
    requires Sound(st) && (e.End? ==> st.depth > 0)
    ensures var r := OnEvent(st, e);
            && r.depth == st.depth + (match e case Start(_, _) => 1 case End(_) => -1 case Chars(_) => 0)
            && r.starts == st.starts + (if e.Start? && st.depth == 0 then [LocalName(e.name)] else [])
            && r.ends == st.ends + (if e.End? && st.depth == 1 then 1 else 0)
            && |r.fired| == |st.fired| + (if e.End? && st.depth == 2 then 1 else 0)
            && r.errors == st.errors + (if e.Chars? && st.depth < 2 then 1 else 0)
  {
  }
}
