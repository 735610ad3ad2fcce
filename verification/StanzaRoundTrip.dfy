/**
 Printing a tree, reading the text and building a tree from the events gives the same tree
 back, with each element's namespace made explicit and adjacent text joined, however the
 reader cuts character data into pieces.
 */
module StanzaRoundTrip {
  import opened Wrappers
  import opened Stanza
  import opened StanzaReader
  import opened StanzaReading
  import opened XmlText
  import opened StanzaBuilder

  /** Append a child, joining text to text and dropping empty text. */
  function Push(kids: seq<Node>, child: Node): seq<Node> {
    match child
    case Element(_, _, _) => kids + [child]
    case Data("") => kids
    case Data(text) =>
      if kids != [] && kids[|kids| - 1].Data? then
        kids[..|kids| - 1] + [Data(kids[|kids| - 1].text + text)]
      else kids + [child]
  }

  /** A tree with adjacent text joined. */
  function Tidy(n: Node): (r: Node)
    ensures r.Element? == n.Element?
  {
    match n
    case Data(_) => n
    case Element(name, attributes, children) => Element(name, attributes, TidyAll(children))
  }

  function TidyAll(kids: seq<Node>): seq<Node> {
    if kids == [] then []
    else Push(TidyAll(kids[..|kids| - 1]), Tidy(kids[|kids| - 1]))
  }

  /** What the tree means where the default namespace is `ns`. */
  function Meaning(t: Stanza, ns: string): (r: Node)
    requires Loose(t)
    ensures r.Element? == t.Tag?
  {
    match t
    case Text(data) => Data(data.value)
    case Tag(name, attributes, children) =>
      var own := Resolve(attributes, ns);
      Element(name.value, Explicit(attributes, own), MeaningAll(children, own, []))
  }

  function MeaningAll(ts: seq<Stanza>, ns: string, kids: seq<Node>): seq<Node>
    requires forall k :: 0 <= k < |ts| ==> Loose(ts[k])
  {
    if ts == [] then kids else MeaningAll(ts[1..], ns, Push(kids, Meaning(ts[0], ns)))
  }

  /** The attribute table as a map. */
  function Dictionary(attributes: Attributes): (r: map<string, string>)
    ensures forall k :: k in r <==> Lookup(attributes, k).Some?
    ensures forall k :: k in r ==> Lookup(attributes, k) == Some(r[k])
  {
    if attributes == [] then map[]
    else Dictionary(attributes[1..])[attributes[0].0 := attributes[0].1]
  }

  // ----- names and attributes

  lemma {:induction false} FindAfter(before: string, after: string)
    requires SEP !in before
    ensures Find(before + [SEP] + after, SEP) == Some(|before|)
  {
    var s := before + [SEP] + after;
    if before != "" {
      FindAfter(before[1..], after);
      assert s[1..] == before[1..] + [SEP] + after;
    }
  }

  lemma {:induction false} QualifiedSplits(ns: string, name: string)
    requires SEP !in ns && SEP !in name
    ensures LocalName(Qualified(ns, name)) == name
    ensures Namespace(Qualified(ns, name)) == if ns == "" then None else Some(ns)
  {
    if ns != "" {
      FindAfter(ns, name);
      assert (ns + [SEP] + name)[|ns| + 1..] == name;
      assert (ns + [SEP] + name)[..|ns|] == ns;
    }
  }

  lemma {:induction false} PlainName(key: string)
    requires WfName(key)
    ensures LocalName(key) == key
  {
    hide XmlName;
  }

  /** One attribute in front. */
  lemma {:induction false} SetFirst(table: map<string, string>, key: string, value: string, rest: Attributes)
    requires WfName(key) && value != ""
    ensures SetAttributes(table, [(key, value)] + rest) == SetAttributes(table[key := value], rest)
  {
    PlainName(key);
    hide WfName, LocalName;
    assert key != "" by { NotEmptyName(key); }
    assert ([(key, value)] + rest)[1..] == rest;
  }

  lemma {:induction false} NotEmptyName(key: string)
    requires WfName(key)
    ensures key != ""
  {
    hide XmlName;
  }

  lemma {:induction false} TableOf(table: map<string, string>, attributes: Attributes, k: string)
    requires LooseAttributes(attributes)
    ensures var r := SetAttributes(table, Without(attributes, XMLNS));
            if k != XMLNS && Lookup(attributes, k).Some? then k in r && Some(r[k]) == Lookup(attributes, k)
            else (k in r <==> k in table) && (k in r ==> r[k] == table[k])
    decreases |attributes|
  {
    hide WfName, SetAttributes, Ascii, XmlData, ReservedNs;
    if attributes == [] {
      NothingSet(table);
    } else {
      var (key, value) := attributes[0];
      var rest := Without(attributes[1..], XMLNS);
      if key == XMLNS {
        assert Without(attributes, XMLNS) == rest;
        TableOf(table, attributes[1..], k);
      } else {
        assert Without(attributes, XMLNS) == [(key, value)] + rest;
        SetFirst(table, key, value, rest);
        TableOf(table[key := value], attributes[1..], k);
      }
    }
  }

  lemma {:induction false} NothingSet(table: map<string, string>)
    ensures SetAttributes(table, []) == table
  {
  }

  predicate Separable(ns: string) {
    ns != "" && SEP !in ns
  }

  lemma {:induction false} ResolveSeparable(attributes: Attributes, ns: string)
    requires WfAttributes(attributes) && Separable(ns)
    ensures Separable(Resolve(attributes, ns))
  {
    if attributes != [] && attributes[0].0 != XMLNS {
      ResolveSeparable(attributes[1..], ns);
    }
  }

  /** The attributes an element has in the end: its own, and the namespace made explicit. */
  function Explicit(attributes: Attributes, own: string): map<string, string> {
    map k | k in Dictionary(attributes).Keys + {XMLNS} :: if k == XMLNS then own else Dictionary(attributes)[k]
  }

  lemma {:induction false} TableIsExplicit(attributes: Attributes, own: string)
    requires WfAttributes(attributes) && own != ""
    ensures SetAttribute(SetAttributes(map[], Without(attributes, XMLNS)), XMLNS, own) == Explicit(attributes, own)
  {
    hide SetAttributes, Without, LooseAttributes, QuoteFree, Lookup;
    var table := SetAttributes(map[], Without(attributes, XMLNS));
    forall k: string
      ensures k != XMLNS ==> (k in table <==> k in Dictionary(attributes))
      ensures k != XMLNS && k in table ==> table[k] == Dictionary(attributes)[k]
    {
      TableOf(map[], attributes, k);
    }
  }

  /** The element a start event creates carries the meaning of the tag, without children. */
  lemma {:induction false} NewElementMeans(name: string, attributes: Attributes, ns: string)
    requires WfName(name) && WfAttributes(attributes) && Separable(ns)
    ensures NewElement(Qualified(Resolve(attributes, ns), name), Without(attributes, XMLNS))
         == Meaning(Tag(Some(name), attributes, []), ns)
  {
    hide SetAttributes, Without, LooseAttributes, QuoteFree, Explicit;
    ResolveSeparable(attributes, ns);
    QualifiedSplits(Resolve(attributes, ns), name);
    TableIsExplicit(attributes, Resolve(attributes, ns));
  }

  // ----- joining text

  function TidyEach(ns: seq<Node>): (r: seq<Node>)
    ensures |r| == |ns| && forall k :: 0 <= k < |ns| ==> r[k] == Tidy(ns[k])
  {
    seq(|ns|, k requires 0 <= k < |ns| => Tidy(ns[k]))
  }

  function TidyState(st: State): State {
    st.(open := TidyEach(st.open), fired := TidyEach(st.fired))
  }

  /** One event on a state whose texts are joined as they arrive. */
  function TidyEvent(st: State, e: Event): (r: State)
    requires Sound(st) && (e.End? ==> st.depth > 0)
    ensures Sound(r)
  {
    if e.Chars? && st.depth >= 2 then Put(st, Data(e.text)) else OnEvent(st, e)
  }

  function TidyEvents(st: State, events: seq<Event>): (r: State)
    requires Sound(st) && Balanced(st.depth, events)
    ensures Sound(r)
    decreases |events|
  {
    if events == [] then st else TidyEvents(TidyEvent(st, events[0]), events[1..])
  }

  /** Hand a finished node to the element under construction, or fire it. */
  function Put(st: State, n: Node): (r: State)
    requires Sound(st)
    ensures Sound(r) && r.depth == st.depth
  {
    if st.open == [] then st.(fired := st.fired + [n])
    else
      var last := |st.open| - 1;
      var top := st.open[last];
      st.(open := st.open[..last] + [top.(children := Push(top.children, n))])
  }

  lemma {:induction false} TidyAdopt(parent: Node, child: Node)
    requires parent.Element?
    ensures Tidy(Adopt(parent, child))
         == Element(parent.name, parent.attributes, Push(TidyAll(parent.children), Tidy(child)))
  {
    var kids := parent.children + [child];
    assert kids[..|kids| - 1] == parent.children;
  }

  lemma {:induction false} TidyStart(st: State, nsname: string, attributes: Attributes)
    requires Sound(st)
    ensures Sound(TidyState(st)) && TidyState(OnStart(st, nsname, attributes)) == OnStart(TidyState(st), nsname, attributes)
  {
    assert Tidy(NewElement(nsname, attributes)) == NewElement(nsname, attributes);
  }

  lemma {:induction false} TidyEnd(st: State)
    requires Sound(st) && st.depth > 0
    ensures Sound(TidyState(st)) && TidyState(OnEnd(st)) == OnEnd(TidyState(st))
  {
    var n := |st.open|;
    if n > 1 {
      TidyAdopt(st.open[n - 2], st.open[n - 1]);
    }
    hide TidyAll, Push, Adopt;
    var r, s := TidyState(OnEnd(st)), OnEnd(TidyState(st));
    assert r.open == s.open && r.fired == s.fired;
  }

  lemma {:induction false} TidyChars(st: State, text: string)
    requires Sound(st)
    ensures Sound(TidyState(st)) && TidyState(OnEvent(st, Chars(text))) == TidyEvent(TidyState(st), Chars(text))
  {
    var n := |st.open|;
    if st.depth >= 2 {
      TidyAdopt(st.open[n - 1], Data(text));
    }
  }

  /** Joining text after an event is the same as joining it while the event is handled. */
  lemma {:induction false} TidyCommutes(st: State, e: Event)
    requires Sound(st) && (e.End? ==> st.depth > 0)
    ensures Sound(TidyState(st)) && TidyState(OnEvent(st, e)) == TidyEvent(TidyState(st), e)
  {
    hide OnStart, OnEnd, Put, Sound, TidyEach;
    match e {
      case Start(nsname, attributes) => TidyStart(st, nsname, attributes);
      case End(_) => TidyEnd(st);
      case Chars(text) => TidyChars(st, text);
    }
  }

  lemma {:induction false} TidyCommutesAll(st: State, events: seq<Event>)
    requires Sound(st) && Balanced(st.depth, events)
    ensures Sound(TidyState(st)) && TidyState(OnEvents(st, events)) == TidyEvents(TidyState(st), events)
    decreases |events|
  {
    if events != [] {
      TidyCommutes(st, events[0]);
      TidyCommutesAll(OnEvent(st, events[0]), events[1..]);
    }
  }

  // ----- cutting character data into pieces

  /** Every piece of character data cut into single characters. */
  function Explode(events: seq<Event>): seq<Event> {
    if events == [] then []
    else (if events[0].Chars? then Letters(events[0].text) else [events[0]]) + Explode(events[1..])
  }

  /** Character data only inside stanzas, and never an empty piece. */
  predicate DataInside(depth: nat, events: seq<Event>)
    requires Balanced(depth, events)
    decreases |events|
  {
    events == []
    || (match events[0]
        case Start(_, _) => DataInside(depth + 1, events[1..])
        case End(_) => DataInside(depth - 1, events[1..])
        case Chars(text) => depth >= 2 && text != "" && DataInside(depth, events[1..]))
  }

  predicate Fits(depth: nat, events: seq<Event>) {
    Balanced(depth, events) && DataInside(depth, events)
  }

  lemma {:induction false} PushTwice(kids: seq<Node>, a: string, b: string)
    ensures Push(Push(kids, Data(a)), Data(b)) == Push(kids, Data(a + b))
  {
    if a == "" {
      assert a + b == b;
    } else if b == "" {
      assert a + b == a;
    } else if kids != [] && kids[|kids| - 1].Data? {
      assert kids[|kids| - 1].text + a + b == kids[|kids| - 1].text + (a + b);
    }
  }

  lemma {:induction false} PutTwice(st: State, a: string, b: string)
    requires Sound(st) && st.depth >= 2
    ensures Put(Put(st, Data(a)), Data(b)) == Put(st, Data(a + b))
  {
    PushTwice(st.open[|st.open| - 1].children, a, b);
  }

  /** The depth an event leads to. */
  function DepthAfter(depth: nat, e: Event): int {
    match e
    case Start(_, _) => depth + 1
    case End(_) => depth - 1
    case Chars(_) => depth
  }

  lemma {:induction false} FirstEvent(st: State, e: Event, more: seq<Event>)
    requires Sound(st) && (e.End? ==> st.depth > 0) && (e.Chars? ==> st.depth >= 2 && e.text != "")
    requires Fits(DepthAfter(st.depth, e), more)
    ensures TidyEvent(st, e).depth == DepthAfter(st.depth, e)
    ensures Fits(st.depth, [e] + more)
    ensures TidyEvents(st, [e] + more) == TidyEvents(TidyEvent(st, e), more)
  {
    assert ([e] + more)[1..] == more;
  }

  /** The letters of a text, one by one, do what the text does. */
  lemma {:induction false} LettersPut(st: State, text: string, rest: seq<Event>)
    requires Sound(st) && (text == "" || st.depth >= 2) && st.depth >= 1 && Fits(st.depth, rest)
    ensures Fits(st.depth, Letters(text) + rest)
    ensures TidyEvents(st, Letters(text) + rest)
         == TidyEvents(if text == "" then st else Put(st, Data(text)), rest)
    decreases |text|
  {
    hide Put, Fits, Sound, TidyEvents, Letters;
    if text == "" {
      NoLetters();
      assert [] + rest == rest;
    } else {
      var first, more := [text[0]], Letters(text[1..]) + rest;
      LettersFirst(text, rest);
      LettersPut(Put(st, Data(first)), text[1..], rest);
      FirstEvent(st, Chars(first), more);
      PutTwice(st, first, text[1..]);
      assert first + text[1..] == text;
      if text[1..] == "" {
        assert text == first;
      }
    }
  }

  lemma {:induction false} NoLetters()
    ensures Letters("") == []
  {
  }

  lemma {:induction false} LettersFirst(text: string, rest: seq<Event>)
    requires text != ""
    ensures Letters(text) + rest == [Chars([text[0]])] + (Letters(text[1..]) + rest)
  {
  }

  lemma {:induction false} FitsChars(depth: nat, events: seq<Event>)
    requires events != [] && events[0].Chars? && Fits(depth, events)
    ensures depth >= 2 && Fits(depth, events[1..])
  {
  }

  lemma {:induction false} LettersFit(depth: nat, text: string, rest: seq<Event>)
    requires text != "" && Fits(depth, Letters(text) + rest)
    ensures depth >= 2 && Fits(depth, rest)
  {
    hide Fits;
    var events := Letters(text) + rest;
    assert events[1..] == Letters(text[1..]) + rest;
    FitsChars(depth, events);
    if text[1..] == "" {
      assert events[1..] == rest;
    } else {
      LettersFit(depth, text[1..], rest);
    }
  }

  /** However the reader cuts the text, the builder ends up with the same joined tree. */
  lemma {:induction false} CutsDoNotMatter(st: State, events: seq<Event>)
    requires Sound(st) && Fits(st.depth, Explode(events))
    requires forall k :: 0 <= k < |events| && events[k].Chars? ==> events[k].text != ""
    ensures Balanced(st.depth, events) && TidyEvents(st, events) == TidyEvents(st, Explode(events))
    decreases |events|
  {
    if events != [] {
      var e, rest := events[0], Explode(events[1..]);
      if e.Chars? {
        LettersFit(st.depth, e.text, rest);
        LettersPut(st, e.text, rest);
      } else {
        assert Explode(events)[1..] == rest;
      }
      CutsDoNotMatter(TidyEvent(st, e), events[1..]);
    }
  }

  // ----- building a tree from its events

  lemma {:induction false} BuildStanza(st: State, t: Stanza, ns: string, rest: seq<Event>)
    requires Wf(t) && Separable(ns) && Sound(st) && st.depth >= (if t.Text? then 2 else 1)
    requires Fits(st.depth, rest)
    ensures Fits(st.depth, EventsOf(t, ns) + rest)
    ensures TidyEvents(st, EventsOf(t, ns) + rest) == TidyEvents(Put(st, Meaning(t, ns)), rest)
    decreases t, 1
  {
    hide Fits, TidyEvents, Put, WfName, LooseAttributes, QuoteFree, Qualified, Without, Explicit, NewElement, MeaningAll;
    if t.Text? {
      LettersPut(st, t.data.value, rest);
      PutEmpty(st);
    } else {
      var own := Resolve(t.attributes, ns);
      ResolveSeparable(t.attributes, ns);
      var start := Start(Qualified(own, t.name.value), Without(t.attributes, XMLNS));
      var end := End(Qualified(own, t.name.value));
      NewElementMeans(t.name.value, t.attributes, ns);
      BuildTag(st, t, ns, own, start, end, rest);
      assert EventsOf(t, ns) + rest == [start] + (EventsOfAll(t.children, own) + ([end] + rest));
    }
  }

  lemma {:induction false} BuildTag(st: State, t: Stanza, ns: string, own: string,
                                    start: Event, end: Event, rest: seq<Event>)
    requires Wf(t) && t.Tag? && Sound(st) && st.depth >= 1 && Fits(st.depth, rest)
    requires own == Resolve(t.attributes, ns) && Separable(own) && start.Start? && end.End?
    requires NewElement(start.name, start.attributes) == Meaning(Tag(t.name, t.attributes, []), ns)
    ensures var events := [start] + (EventsOfAll(t.children, own) + ([end] + rest));
            Fits(st.depth, events) && TidyEvents(st, events) == TidyEvents(Put(st, Meaning(t, ns)), rest)
    decreases t, 0
  {
    hide EventsOf, Meaning, MeaningAll, NewElement, Put, PutAll, Fits, TidyEvents, Resolve;
    var inside := OnStart(st, start.name, start.attributes);
    CloseElement(st, inside, t, ns, end);
    FirstEvent(PutAll(inside, t.children, own), end, rest);
    BuildAll(inside, t.children, own, [end] + rest);
    FirstEvent(st, start, EventsOfAll(t.children, own) + ([end] + rest));
  }

  lemma {:induction false} PutEmpty(st: State)
    requires Sound(st) && st.depth >= 2
    ensures Put(st, Data("")) == st
  {
  }

  lemma {:induction false} CloseElement(st: State, inside: State, t: Stanza, ns: string, end: Event)
    requires Wf(t) && t.Tag? && Sound(st) && Sound(inside) && st.depth >= 1 && end.End?
    requires inside == st.(open := st.open + [Meaning(Tag(t.name, t.attributes, []), ns)], depth := st.depth + 1)
    ensures var full := PutAll(inside, t.children, Resolve(t.attributes, ns));
            full.depth == st.depth + 1 && TidyEvent(full, end) == Put(st, Meaning(t, ns))
  {
    PutAllTop(inside, t.children, Resolve(t.attributes, ns));
  }

  /** Children put one after the other into the element under construction. */
  function PutAll(st: State, ts: seq<Stanza>, ns: string): (r: State)
    requires Sound(st) && AllWf(ts)
    ensures Sound(r) && r.depth == st.depth
    decreases |ts|
  {
    if ts == [] then st else PutAll(Put(st, Meaning(ts[0], ns)), ts[1..], ns)
  }

  lemma {:induction false} PutAllTop(st: State, ts: seq<Stanza>, ns: string)
    requires Sound(st) && st.open != [] && AllWf(ts)
    ensures var last := |st.open| - 1;
            PutAll(st, ts, ns) == st.(open := st.open[..last]
              + [st.open[last].(children := MeaningAll(ts, ns, st.open[last].children))])
    decreases |ts|
  {
    if ts != [] {
      PutAllTop(Put(st, Meaning(ts[0], ns)), ts[1..], ns);
    }
  }

  lemma {:induction false} BuildAll(st: State, ts: seq<Stanza>, ns: string, rest: seq<Event>)
    requires AllWf(ts)
    requires Separable(ns) && Sound(st) && st.depth >= 2 && Fits(st.depth, rest)
    ensures Fits(st.depth, EventsOfAll(ts, ns) + rest)
    ensures TidyEvents(st, EventsOfAll(ts, ns) + rest) == TidyEvents(PutAll(st, ts, ns), rest)
    decreases ts
  {
    if ts == [] {
      assert EventsOfAll(ts, ns) + rest == rest;
    } else {
      var more := EventsOfAll(ts[1..], ns) + rest;
      assert EventsOfAll(ts, ns) + rest == EventsOf(ts[0], ns) + more;
      BuildAll(Put(st, Meaning(ts[0], ns)), ts[1..], ns, rest);
      BuildStanza(st, ts[0], ns, more);
    }
  }

  lemma {:induction false} FiredGrows(st: State, events: seq<Event>)
    requires Sound(st) && Balanced(st.depth, events)
    ensures st.fired <= OnEvents(st, events).fired
    decreases |events|
  {
    if events != [] {
      FiredGrows(OnEvent(st, events[0]), events[1..]);
    }
  }

  /** The text of a well-formed element can be read in an open `jabber:client` stream. */
  lemma {:induction false} PrintedIsReadable(t: Stanza, stream: string)
    requires Wf(t)
    ensures Render(t, None).Some?
    ensures Read(Render(t, None).value, [Scope(stream, NS_CLIENT)])
         == Some((EventsOf(t, NS_CLIENT), [Scope(stream, NS_CLIENT)]))
  {
    hide Loose, ApostropheFree, EventsOf;
    var scopes := [Scope(stream, NS_CLIENT)];
    ReadRendered(t, None, NS_CLIENT, scopes, "");
    assert Render(t, None).value + "" == Render(t, None).value;
    assert EventsOf(t, NS_CLIENT) + [] == EventsOf(t, NS_CLIENT);
  }

  /** `events` are what a reader may deliver for the text of `t`: its events, in any pieces. */
  ghost predicate Delivers(events: seq<Event>, t: Stanza, stream: string) {
    && Render(t, None).Some?
    && var reading := Read(Render(t, None).value, [Scope(stream, NS_CLIENT)]);
    && reading.Some? && Explode(events) == reading.value.0
    && forall k :: 0 <= k < |events| && events[k].Chars? ==> events[k].text != ""
  }

  /**
   Main result: print a well-formed element, read the text inside an open `jabber:client`
   stream, cut its character data in any way, and feed the builder.  It fires exactly one
   stanza, which is the original with namespaces resolved and adjacent text joined, and is
   back where it was, without an error.
   */
  lemma {:induction false} PrintThenParse(t: Stanza, stream: string, st: State, events: seq<Event>)
    requires Wf(t) && t.Tag? && Sound(st) && st.depth == 1
    requires Delivers(events, t, stream)
    ensures Balanced(st.depth, events)
    ensures var after := OnEvents(st, events);
            && |after.fired| == |st.fired| + 1 && after.fired[..|st.fired|] == st.fired
            && Tidy(after.fired[|st.fired|]) == Meaning(t, NS_CLIENT)
            && after == st.(fired := after.fired)
  {
    hide Loose, ApostropheFree, EventsOf, Meaning, Read;
    PrintedIsReadable(t, stream);
    var tidy := TidyState(st);
    BuildStanza(tidy, t, NS_CLIENT, []);
    assert EventsOf(t, NS_CLIENT) + [] == EventsOf(t, NS_CLIENT);
    CutsDoNotMatter(tidy, events);
    TidyCommutesAll(st, events);
    FiredGrows(st, events);
    var after := OnEvents(st, events);
    assert TidyState(after) == Put(tidy, Meaning(t, NS_CLIENT));
    assert after.open == [] by { assert |TidyEach(after.open)| == 0; }
    assert |TidyEach(after.fired)| == |st.fired| + 1;
    assert Tidy(after.fired[|st.fired|]) == TidyEach(after.fired)[|st.fired|];
  }
}
