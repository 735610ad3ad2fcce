/**
 The callbacks of src/xmpp-parser-expat.c that turn parser events into stanza trees, tracking
 the depth in the stream and the element under construction.
 */
module StanzaBuilder {
  import opened Wrappers
  import opened Stanza
  import opened StanzaReader

  /** A parsed tree; the attributes are the contents of the hash table. */
  datatype Node =
    | Element(name: string, attributes: map<string, string>, children: seq<Node>)
    | Data(text: string)

  /** strchr */
  function Find(s: string, c: char): (r: Option<nat>)
    ensures r.Some? ==> r.value < |s| && s[r.value] == c && c !in s[..r.value]
    ensures r.None? ==> c !in s
  {
    if s == "" then None
    else if s[0] == c then Some(0)
    else
      match Find(s[1..], c)
      case None => None
      case Some(k) =>
        assert s[..k + 1] == [s[0]] + s[1..][..k];
        Some(k + 1)
  }

  /** _xml_name: the part after the first separator, or everything. */
  function LocalName(nsname: string): string {
    match Find(nsname, SEP)
    case None => nsname
    case Some(k) => nsname[k + 1..]
  }

  /** _xml_namespace: the part before the first separator, or null. */
  function Namespace(nsname: string): Option<string> {
    match Find(nsname, SEP)
    case None => None
    case Some(k) => Some(nsname[..k])
  }

  /** xmpp_stanza_set_attribute: empty keys and values cannot be duplicated, so nothing is stored. */
  function SetAttribute(table: map<string, string>, key: string, value: string): map<string, string> {
    if key == "" || value == "" then table else table[key := value]
  }

  /** _set_attributes */
  function SetAttributes(table: map<string, string>, attributes: Attributes): map<string, string>
    decreases |attributes|
  {
    if attributes == [] then table
    else SetAttributes(SetAttribute(table, LocalName(attributes[0].0), attributes[0].1), attributes[1..])
  }

  /** A new element with the name, attributes and namespace a start event carries. */
  function NewElement(nsname: string, attributes: Attributes): Node {
    var table := SetAttributes(map[], attributes);
    Element(LocalName(nsname),
            match Namespace(nsname) case Some(ns) => SetAttribute(table, XMLNS, ns) case None => table,
            [])
  }

  /**
   The parser: `open` is the current stanza with its chain of parents, outermost first;
   `fired` lists what the stanza callback was given and `starts` the names given to the callback
   for the start of a stream; `ends` and `errors` count the others.
   */
  datatype State = State(depth: nat, open: seq<Node>, fired: seq<Node>, starts: seq<string>, ends: nat, errors: nat)

  predicate Sound(st: State) {
    && |st.open| == (if st.depth == 0 then 0 else st.depth - 1)
    && forall k :: 0 <= k < |st.open| ==> st.open[k].Element?
  }

  function Adopt(parent: Node, child: Node): Node
    requires parent.Element?
  {
    parent.(children := parent.children + [child])
  }

  /** The error branch of the callback is not here: StartElement shows it is never taken. */
  function OnStart(st: State, nsname: string, attributes: Attributes): State
    requires Sound(st)
  {
    if st.depth == 0 then st.(starts := st.starts + [LocalName(nsname)], depth := 1)
    else st.(open := st.open + [NewElement(nsname, attributes)], depth := st.depth + 1)
  }

  function OnEnd(st: State): State
    requires Sound(st) && st.depth > 0
  {
    var n := |st.open|;
    if st.depth == 1 then st.(ends := st.ends + 1, depth := 0)
    else if n > 1 then
      st.(open := st.open[..n - 2] + [Adopt(st.open[n - 2], st.open[n - 1])], depth := st.depth - 1)
    else st.(fired := st.fired + [st.open[0]], open := [], depth := st.depth - 1)
  }

  function OnChars(st: State, text: string): State
    requires Sound(st)
  {
    if st.depth < 2 then st.(errors := st.errors + 1)
    else
      var n := |st.open|;
      st.(open := st.open[..n - 1] + [Adopt(st.open[n - 1], Data(text))])
  }

  /** End events never outnumber start events: expat reports well-formed documents only. */
  predicate Balanced(depth: nat, events: seq<Event>)
    decreases |events|
  {
    events == []
    || (match events[0]
        case Start(_, _) => Balanced(depth + 1, events[1..])
        case End(_) => depth > 0 && Balanced(depth - 1, events[1..])
        case Chars(_) => Balanced(depth, events[1..]))
  }

  function OnEvent(st: State, e: Event): (r: State)
    requires Sound(st) && (e.End? ==> st.depth > 0)
    ensures Sound(r)
  {
    match e
    case Start(nsname, attributes) => OnStart(st, nsname, attributes)
    case End(_) => OnEnd(st)
    case Chars(text) => OnChars(st, text)
  }

  function OnEvents(st: State, events: seq<Event>): (r: State)
    requires Sound(st) && Balanced(st.depth, events)
    ensures Sound(r)
    decreases |events|
  {
    if events == [] then st else OnEvents(OnEvent(st, events[0]), events[1..])
  }

  class Parser {
    var depth: nat
    var open: seq<Node>
    var fired: seq<Node>
    var starts: seq<string>
    var ends: nat
    var errors: nat

    ghost function View(): State
      reads this
    {
      State(depth, open, fired, starts, ends, errors)
    }

    ghost predicate Valid()
      reads this
    {
      Sound(View())
    }

    /** parser_new, and the deferred reset at the next chunk. */
    constructor ()
      ensures Valid() && View() == State(0, [], [], [], 0, 0)
    {
      depth, open, fired, starts, ends, errors := 0, [], [], [], 0, 0;
    }

    method StartElement(nsname: string, attributes: Attributes)
      requires Valid()
      modifies this
      ensures Valid() && View() == OnStart(old(View()), nsname, attributes)
    {
      if depth == 0 {
        starts := starts + [LocalName(nsname)];
      } else if open == [] && depth == 1 {
        open := [NewElement(nsname, attributes)];
      } else if depth > 1 && open != [] {
        open := open + [NewElement(nsname, attributes)];
      } else {
        assert false;
      }
      depth := depth + 1;
    }

    method EndElement()
      requires Valid() && depth > 0
      modifies this
      ensures Valid() && View() == OnEnd(old(View()))
    {
      depth := depth - 1;
      if depth == 0 {
        ends := ends + 1;
      } else {
        var n := |open|;
        if n > 1 {
          open := open[..n - 2] + [Adopt(open[n - 2], open[n - 1])];
        } else {
          fired := fired + [open[0]];
          open := [];
        }
      }
    }

    method Characters(text: string)
      requires Valid()
      modifies this
      ensures Valid() && View() == OnChars(old(View()), text)
    {
      if depth < 2 {
        errors := errors + 1;
        return;
      }
      var n := |open|;
      open := open[..n - 1] + [Adopt(open[n - 1], Data(text))];
    }

    /** XML_Parse delivering the events of one chunk. */
    method Feed(events: seq<Event>)
      requires Valid() && Balanced(depth, events)
      modifies this
      ensures Valid() && View() == OnEvents(old(View()), events)
    {
      var i := 0;
      while i < |events|
        invariant 0 <= i <= |events|
        invariant Valid() && Balanced(depth, events[i..])
        invariant OnEvents(View(), events[i..]) == OnEvents(old(View()), events)
      {
        assert events[i..][1..] == events[i + 1..];
        match events[i] {
          case Start(nsname, attributes) => StartElement(nsname, attributes);
          case End(_) => EndElement();
          case Chars(text) => Characters(text);
        }
        i := i + 1;
      }
    }
  }
}
