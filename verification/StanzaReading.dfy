/** Reading printed text gives back the events of the tree, with every namespace resolved. */
module StanzaReading {
  import opened Wrappers
  import opened Stanza
  import opened StanzaReader
  import opened XmlText

  /** A name of XML 1.0 without a colon. */
  predicate WfName(name: string) {
    name != "" && XmlName(name) && forall k :: 0 <= k < |name| ==> NameChar(name[k])
  }

  /** Bytes a reader hands on unchanged: no terminator, no separator, no carriage return. */
  predicate DataChar(c: char) {
    c !in {'\0', '\r', SEP}
  }

  /** Whitespace that a reader would turn into spaces inside a value is left out as well. */
  predicate ValueChar(c: char) {
    DataChar(c) && c != '\n' && c != '\t'
  }

  /** Namespaces that must not be declared as a default, section 3 of Namespaces in XML 1.0. */
  predicate ReservedNs(ns: string) {
    ns == "http://www.w3.org/XML/1998/namespace" || ns == "http://www.w3.org/2000/xmlns/"
  }

  /** A seven-bit key, for which any table has a bucket, and a value that comes through unchanged. */
  predicate LooseAttribute(key: string, value: string) {
    && WfName(key) && Ascii(key) && (key == XMLNS ==> !ReservedNs(value))
    && value != "" && XmlData(value) && forall k :: 0 <= k < |value| ==> ValueChar(value[k])
  }

  predicate LooseAttributes(attributes: Attributes) {
    attributes == []
    || (var (key, value) := attributes[0];
        && LooseAttribute(key, value) && Lookup(attributes[1..], key) == None
        && LooseAttributes(attributes[1..]))
  }

  predicate LooseText(data: string) {
    XmlData(data) && forall k :: 0 <= k < |data| ==> DataChar(data[k])
  }

  /** Trees that are well-formed XML when values are put in quotes that they do not hold. */
  predicate Loose(t: Stanza) {
    match t
    case Unknown => false
    case Text(data) => data.Some? && LooseText(data.value)
    case Tag(name, attributes, children) =>
      && name.Some? && WfName(name.value) && LooseAttributes(attributes)
      && forall k :: 0 <= k < |children| ==> Loose(children[k])
  }

  /** The printer puts values between apostrophes and does not escape them. */
  predicate QuoteFree(attributes: Attributes) {
    forall k :: 0 <= k < |attributes| ==> '\'' !in attributes[k].1
  }

  predicate ApostropheFree(t: Stanza) {
    t.Tag? ==> QuoteFree(t.attributes) && forall k :: 0 <= k < |t.children| ==> ApostropheFree(t.children[k])
  }

  predicate WfAttributes(attributes: Attributes) {
    LooseAttributes(attributes) && QuoteFree(attributes)
  }

  predicate Wf(t: Stanza) {
    Loose(t) && ApostropheFree(t)
  }

  predicate AllWf(ts: seq<Stanza>) {
    && (forall k :: 0 <= k < |ts| ==> Loose(ts[k]))
    && (forall k :: 0 <= k < |ts| ==> ApostropheFree(ts[k]))
  }

  /** The namespace of an element whose surroundings have default namespace `ns`. */
  function Resolve(attributes: Attributes, ns: string): string {
    match Lookup(attributes, XMLNS)
    case Some(own) => own
    case None => ns
  }

  function Letters(data: string): seq<Event> {
    if data == "" then [] else [Chars([data[0]])] + Letters(data[1..])
  }

  /** What a reader should report for `t` where the default namespace is `ns`. */
  function EventsOf(t: Stanza, ns: string): seq<Event>
    requires Loose(t)
  {
    match t
    case Text(data) => Letters(data.value)
    case Tag(name, attributes, children) =>
      var own := Resolve(attributes, ns);
      [Start(Qualified(own, name.value), Without(attributes, XMLNS))]
      + EventsOfAll(children, own)
      + [End(Qualified(own, name.value))]
  }

  function EventsOfAll(ts: seq<Stanza>, ns: string): seq<Event>
    requires forall k :: 0 <= k < |ts| ==> Loose(ts[k])
  {
    if ts == [] then [] else EventsOf(ts[0], ns) + EventsOfAll(ts[1..], ns)
  }

  /** The attributes the printer shows. */
  function Shown(attributes: Attributes, parent: Option<Attributes>): Attributes {
    if attributes == [] then []
    else
      (if Redundant(attributes[0].0, attributes[0].1, parent) then [] else [attributes[0]])
      + Shown(attributes[1..], parent)
  }

  /** The printer's idea of the surroundings agrees with the namespace really in force. */
  predicate Agrees(parent: Option<Attributes>, ns: string) {
    match parent
    case None => ns == NS_CLIENT
    case Some(above) => Lookup(above, XMLNS) == None || Lookup(above, XMLNS) == Some(ns)
  }

  lemma {:induction false} ShownFirst(attributes: Attributes, parent: Option<Attributes>)
    requires attributes != []
    ensures var (key, value) := attributes[0];
            var rest := Shown(attributes[1..], parent);
            if Redundant(key, value, parent) then Shown(attributes, parent) == rest
            else Shown(attributes, parent) == [attributes[0]] + rest && Shown(attributes, parent)[1..] == rest
  {
  }

  lemma {:induction false} ShownLookup(attributes: Attributes, parent: Option<Attributes>, key: string)
    requires LooseAttributes(attributes)
    ensures Lookup(Shown(attributes, parent), key) == None
            || Lookup(Shown(attributes, parent), key) == Lookup(attributes, key)
    ensures Lookup(Shown(attributes, parent), key) == None ==>
              Lookup(attributes, key) == None
              || Redundant(key, Lookup(attributes, key).value, parent)
  {
    if attributes != [] {
      ShownLookup(attributes[1..], parent, key);
      ShownFirst(attributes, parent);
    }
  }

  lemma {:induction false} ShownWithout(attributes: Attributes, parent: Option<Attributes>)
    ensures Without(Shown(attributes, parent), XMLNS) == Without(attributes, XMLNS)
  {
    if attributes != [] {
      ShownWithout(attributes[1..], parent);
      ShownFirst(attributes, parent);
    }
  }

  /** Dropping a redundant default namespace does not change what it resolves to. */
  lemma {:induction false} ShownResolves(attributes: Attributes, parent: Option<Attributes>, ns: string)
    requires WfAttributes(attributes) && Agrees(parent, ns)
    ensures Resolve(Shown(attributes, parent), ns) == Resolve(attributes, ns)
  {
    ShownLookup(attributes, parent, XMLNS);
  }

  lemma {:induction false} SplitNameOf(name: string, rest: string)
    requires forall k :: 0 <= k < |name| ==> NameChar(name[k])
    requires rest == "" || !NameChar(rest[0])
    ensures SplitName(name + rest) == (name, rest)
  {
    if name == "" {
      assert name + rest == rest;
    } else {
      SplitNameOf(name[1..], rest);
      assert (name + rest)[1..] == name[1..] + rest;
      assert [name[0]] + name[1..] == name;
    }
  }

  lemma {:induction false} ReadCharOf(c: char, rest: string)
    requires DataChar(c)
    ensures ReadChar(EscapeChar(c) + rest) == Some((c, rest))
    ensures (EscapeChar(c) + rest)[0] != '<'
  {
    var text := EscapeChar(c) + rest;
    assert text[|EscapeChar(c)|..] == rest;
    assert text[..|EscapeChar(c)|] == EscapeChar(c);
    match c {
      case '<' =>
      case '>' => assert text[..4] != "&lt;" by { assert text[1] == 'g'; }
      case '&' =>
        assert text[..4] != "&lt;" && text[..4] != "&gt;" by { assert text[1] == 'a'; }
      case '"' =>
        assert text[..4] != "&lt;" && text[..4] != "&gt;" && text[..5] != "&amp;" by { assert text[1] == 'q'; }
      case _ =>
    }
  }

  lemma {:induction false} EscapeStart(c: char)
    ensures EscapeChar(c) != "" && (c != '\'' ==> EscapeChar(c)[0] != '\'')
  {
  }

  lemma {:induction false} EscapeFirst(data: string, rest: string)
    requires data != ""
    ensures Escape(data) + rest == EscapeChar(data[0]) + (Escape(data[1..]) + rest)
  {
  }

  lemma {:induction false} ReadValueOf(value: string, rest: string)
    requires (forall k :: 0 <= k < |value| ==> ValueChar(value[k])) && '\'' !in value
    ensures ReadValue(Escape(value) + "'" + rest) == Some((value, rest))
  {
    hide EscapeChar, ReadChar;
    var text := Escape(value) + "'" + rest;
    if value == "" {
      assert text == "'" + rest && text[1..] == rest;
    } else {
      var more := Escape(value[1..]) + "'" + rest;
      assert text == EscapeChar(value[0]) + more;
      ReadCharOf(value[0], more);
      ReadValueOf(value[1..], rest);
      EscapeStart(value[0]);
      assert text[0] == EscapeChar(value[0])[0] != '\'';
      assert [value[0]] + value[1..] == value;
    }
  }

  lemma {:induction false} ReadAttributesOf(attributes: Attributes, parent: Option<Attributes>,
                                            close: string, rest: string)
    requires WfAttributes(attributes) && (close == ">" || close == "/>")
    ensures ReadAttributes(AttributesText(attributes, parent) + close + rest)
         == Some((Shown(attributes, parent), close == "/>", rest))
  {
    hide Escape, LooseAttribute, AttributesText, ReadAttributes, Lookup, StartsWith, Redundant;
    var text := AttributesText(attributes, parent) + close + rest;
    AttributesTextFirst(attributes, parent);
    if attributes == [] {
      assert text == close + rest;
      ReadClose(close, rest);
    } else {
      ReadAttributesOf(attributes[1..], parent, close, rest);
      ShownFirst(attributes, parent);
      var (key, value) := attributes[0];
      var more := AttributesText(attributes[1..], parent) + close + rest;
      if Redundant(key, value, parent) {
        assert text == more;
      } else {
        ShownLookup(attributes[1..], parent, key);
        assert text == " " + key + "='" + Escape(value) + "'" + more;
        ReadAttribute(key, value, more, text);
      }
    }
  }

  lemma {:induction false} AttributesTextFirst(attributes: Attributes, parent: Option<Attributes>)
    ensures attributes == [] ==> AttributesText(attributes, parent) == ""
    ensures attributes != [] ==>
              var (key, value) := attributes[0];
              var piece := if Redundant(key, value, parent) then "" else " " + key + "='" + Escape(value) + "'";
              AttributesText(attributes, parent) == piece + AttributesText(attributes[1..], parent)
  {
  }

  lemma {:induction false} ReadClose(close: string, rest: string)
    requires close == ">" || close == "/>"
    ensures ReadAttributes(close + rest) == Some(([], close == "/>", rest))
  {
    var text := close + rest;
    assert text[..|close|] == close && text[|close|..] == rest;
    if close == "/>" {
      assert text[..1] != ">" by { assert text[0] == '/'; }
    }
  }

  lemma {:induction false} ReadAttribute(key: string, value: string, more: string, text: string)
    requires LooseAttribute(key, value) && '\'' !in value
    requires text == " " + key + "='" + Escape(value) + "'" + more
    requires ReadAttributes(more).Some? && Lookup(ReadAttributes(more).value.0, key) == None
    ensures ReadAttributes(text).Some?
    ensures ReadAttributes(text).value
         == var (found, empty, tail) := ReadAttributes(more).value; ([(key, value)] + found, empty, tail)
  {
    hide Escape, ReadAttributes, Lookup, ReadValue, SplitName, XmlName, XmlData, Ascii, ReservedNs;
    var rest := "='" + (Escape(value) + "'" + more);
    assert text == " " + (key + rest) && text[1..] == key + rest;
    SplitNameOf(key, rest);
    assert rest[2..] == Escape(value) + "'" + more;
    ReadValueOf(value, more);
    hide LooseAttribute;
    AttributeStep(text, key, rest, value, more);
  }

  /** One turn of the reader over an attribute. */
  lemma {:induction false} AttributeStep(text: string, key: string, rest: string, value: string, more: string)
    requires text != "" && text[0] == ' ' && SplitName(text[1..]) == (key, rest) && key != ""
    requires |rest| >= 2 && rest[0] == '=' && rest[1] == '\'' && ReadValue(rest[2..]) == Some((value, more))
    requires ReadAttributes(more).Some? && Lookup(ReadAttributes(more).value.0, key) == None
    ensures ReadAttributes(text).Some?
    ensures ReadAttributes(text).value
         == var (found, empty, tail) := ReadAttributes(more).value; ([(key, value)] + found, empty, tail)
  {
    hide SplitName, ReadValue, Lookup;
    assert text[..1] == " " && rest[..2] == "='";
    if |text| >= 2 {
      assert text[..2][0] == ' ';
    }
  }

  lemma {:induction false} BeforeTwice(a: seq<Event>, b: seq<Event>, r: Reading)
    ensures Before(a, Before(b, r)) == Before(a + b, r)
  {
    if r.Some? {
      assert a + (b + r.value.0) == a + b + r.value.0;
    }
  }

  lemma {:induction false} ReadText(data: string, scopes: seq<Scope>, rest: string)
    requires forall k :: 0 <= k < |data| ==> DataChar(data[k])
    ensures Read(Escape(data) + rest, scopes) == Before(Letters(data), Read(rest, scopes))
  {
    hide Read;
    if data == "" {
      assert Escape(data) + rest == rest;
      if Read(rest, scopes).Some? {
        assert [] + Read(rest, scopes).value.0 == Read(rest, scopes).value.0;
      }
    } else {
      var more := Escape(data[1..]) + rest;
      EscapeFirst(data, rest);
      ReadCharOf(data[0], more);
      ReadLetter(Escape(data) + rest, data[0], more, scopes);
      ReadText(data[1..], scopes, rest);
      BeforeTwice([Chars([data[0]])], Letters(data[1..]), Read(rest, scopes));
    }
  }

  lemma {:induction false} ReadLetter(text: string, c: char, more: string, scopes: seq<Scope>)
    requires text != "" && text[0] != '<' && ReadChar(text) == Some((c, more))
    ensures Read(text, scopes) == Before([Chars([c])], Read(more, scopes))
  {
    hide ReadChar, ReadElement;
    assert text[..1] != "<" by {
      assert text[..1][0] == text[0];
    }
    assert |text| >= 2 ==> text[..2] != "</" by {
      if |text| >= 2 {
        assert text[..2][0] == text[0];
      }
    }
  }

  /** A reading that begins with the start tag of an element in namespace `own`. */
  function Opened(name: string, attributes: Attributes, own: string, scopes: seq<Scope>,
                  empty: bool, rest: string): Reading {
    var start := Start(Qualified(own, name), Without(attributes, XMLNS));
    if empty then Before([start, End(Qualified(own, name))], Read(rest, scopes))
    else Before([start], Read(rest, scopes + [Scope(name, own)]))
  }

  /** A start tag printed for `name` and `attributes`, as the reader takes it. */
  lemma {:induction false} ReadStart(name: string, attributes: Attributes, parent: Option<Attributes>, ns: string,
                  scopes: seq<Scope>, close: string, rest: string)
    requires WfName(name) && WfAttributes(attributes) && Agrees(parent, ns) && (close == ">" || close == "/>")
    requires scopes != [] && scopes[|scopes| - 1].ns == ns
    ensures Read("<" + name + AttributesText(attributes, parent) + close + rest, scopes)
         == Opened(name, attributes, Resolve(attributes, ns), scopes, close == "/>", rest)
  {
    hide Read, Resolve, Without, ReadAttributes, AttributesText, LooseAttributes, QuoteFree;
    var tail := AttributesText(attributes, parent) + close + rest;
    var text := "<" + name + AttributesText(attributes, parent) + close + rest;
    assert text[1..] == name + tail;
    TailStops(attributes, parent, close, rest);
    SplitNameOf(name, tail);
    ReadAttributesOf(attributes, parent, close, rest);
    ShownWithout(attributes, parent);
    ShownResolves(attributes, parent, ns);
    ReadIsElement(text, scopes);
    ElementRead(text, scopes, name, tail, Shown(attributes, parent), close == "/>", rest);
  }

  lemma {:induction false} TailStops(attributes: Attributes, parent: Option<Attributes>, close: string, rest: string)
    requires (close == ">" || close == "/>")
    ensures var tail := AttributesText(attributes, parent) + close + rest; tail != "" && !NameChar(tail[0])
  {
    var text := AttributesText(attributes, parent);
    AttributesStop(attributes, parent);
    if text == "" {
      assert text + close + rest == close + rest;
    }
  }

  lemma {:induction false} AttributesStop(attributes: Attributes, parent: Option<Attributes>)
    ensures AttributesText(attributes, parent) == "" || AttributesText(attributes, parent)[0] == ' '
  {
    if attributes != [] {
      AttributesStop(attributes[1..], parent);
    }
  }

  lemma {:induction false} ReadIsElement(text: string, scopes: seq<Scope>)
    requires |text| >= 2 && text[0] == '<' && text[1] != '/'
    ensures StartsWith(text, "<") && Read(text, scopes) == ReadElement(text, scopes)
  {
  }

  lemma {:induction false} ElementRead(text: string, scopes: seq<Scope>, name: string, tail: string,
                    attributes: Attributes, empty: bool, rest: string)
    requires StartsWith(text, "<") && SplitName(text[1..]) == (name, tail) && name != "" && scopes != []
    requires ReadAttributes(tail) == Some((attributes, empty, rest))
    ensures ReadElement(text, scopes)
         == Opened(name, attributes, Resolve(attributes, scopes[|scopes| - 1].ns), scopes, empty, rest)
  {
  }

  lemma {:induction false} ReadEnd(name: string, ns: string, scopes: seq<Scope>, rest: string)
    requires WfName(name)
    ensures Read("</" + name + ">" + rest, scopes + [Scope(name, ns)])
         == Before([End(Qualified(ns, name))], Read(rest, scopes))
  {
    var text, inner := "</" + name + ">" + rest, scopes + [Scope(name, ns)];
    assert text[..2] == "</" && text[2..] == name + (">" + rest);
    SplitNameOf(name, ">" + rest);
    assert (">" + rest)[1..] == rest;
    assert inner[..|inner| - 1] == scopes;
  }

  lemma {:induction false} LooseRenders(t: Stanza, parent: Option<Attributes>)
    requires Loose(t)
    ensures Render(t, parent).Some?
    decreases t
  {
    if t.Tag? {
      LooseRendersAll(t.children, Some(t.attributes));
    }
  }

  lemma {:induction false} LooseRendersAll(ts: seq<Stanza>, parent: Option<Attributes>)
    requires forall k :: 0 <= k < |ts| ==> Loose(ts[k])
    ensures RenderAll(ts, parent).Some?
    decreases ts
  {
    if ts != [] {
      LooseRenders(ts[0], parent);
      LooseRendersAll(ts[1..], parent);
    }
  }

  /**
   Main result: wherever a printed tree stands, the reader reports exactly the events of the
   tree, with the namespace each element has in the original, at every depth.
   */
  lemma {:induction false} ReadRendered(t: Stanza, parent: Option<Attributes>, ns: string,
                                        scopes: seq<Scope>, rest: string)
    requires Wf(t) && Agrees(parent, ns) && scopes != [] && scopes[|scopes| - 1].ns == ns
    ensures Render(t, parent).Some?
    ensures Read(Render(t, parent).value + rest, scopes) == Before(EventsOf(t, ns), Read(rest, scopes))
    decreases t
  {
    hide Read, Escape, AttributesText, WfName, LooseAttributes, QuoteFree, Qualified, Without;
    LooseRenders(t, parent);
    match t {
      case Text(data) => ReadText(data.value, scopes, rest);
      case Tag(Some(name), attributes, children) =>
        var own := Resolve(attributes, ns);
        var head := "<" + name + AttributesText(attributes, parent);
        var start, end := Start(Qualified(own, name), Without(attributes, XMLNS)), End(Qualified(own, name));
        if children == [] {
          assert Render(t, parent).value + rest == head + "/>" + rest;
          ReadStart(name, attributes, parent, ns, scopes, "/>", rest);
          assert EventsOf(t, ns) == [start, end];
        } else {
          var inner := RenderAll(children, Some(attributes)).value;
          var after := "</" + name + ">" + rest;
          var within := scopes + [Scope(name, own)];
          assert Render(t, parent).value + rest == head + ">" + (inner + after);
          ReadStart(name, attributes, parent, ns, scopes, ">", inner + after);
          ReadRenderedAll(children, attributes, own, within, after);
          ReadEnd(name, own, scopes, rest);
          BeforeTwice(EventsOfAll(children, own), [end], Read(rest, scopes));
          BeforeTwice([start], EventsOfAll(children, own) + [end], Read(rest, scopes));
          assert [start] + (EventsOfAll(children, own) + [end]) == EventsOf(t, ns);
        }
    }
  }

  lemma {:induction false} ReadRenderedAll(ts: seq<Stanza>, above: Attributes, ns: string,
                                           scopes: seq<Scope>, rest: string)
    requires AllWf(ts)
    requires Agrees(Some(above), ns) && scopes != [] && scopes[|scopes| - 1].ns == ns
    ensures RenderAll(ts, Some(above)).Some?
    ensures Read(RenderAll(ts, Some(above)).value + rest, scopes) == Before(EventsOfAll(ts, ns), Read(rest, scopes))
    decreases ts
  {
    hide Read, EventsOf, Render;
    LooseRendersAll(ts, Some(above));
    if ts == [] {
      assert RenderAll(ts, Some(above)).value + rest == rest;
      if Read(rest, scopes).Some? {
        assert [] + Read(rest, scopes).value.0 == Read(rest, scopes).value.0;
      }
    } else {
      var more := RenderAll(ts[1..], Some(above)).value + rest;
      assert RenderAll(ts, Some(above)).value + rest == Render(ts[0], Some(above)).value + more;
      ReadRendered(ts[0], Some(above), ns, scopes, more);
      ReadRenderedAll(ts[1..], above, ns, scopes, rest);
      BeforeTwice(EventsOf(ts[0], ns), EventsOfAll(ts[1..], ns), Read(rest, scopes));
    }
  }
}
