/**
 A namespace-aware reader for the XML subset the printer produces.  It stands in for the
 expat library, whose events the builder of src/xmpp-parser-expat.c consumes: names arrive as
 namespace, separator byte, local name; default namespace declarations are not attributes.
 Character data is delivered here one character at a time.
 */
module StanzaReader {
  import opened Wrappers
  import opened Stanza

  /** NAMESPACE_SEP: a byte that never occurs in UTF-8 text. */
  const SEP: char := '\U{FF}'

  datatype Event =
    | Start(name: string, attributes: Attributes)
    | End(name: string)
    | Chars(text: string)

  /** An open element: its local name and the default namespace in force inside it. */
  datatype Scope = Scope(name: string, ns: string)

  type Reading = Option<(seq<Event>, seq<Scope>)>

  predicate NameChar(c: char) {
    c !in {' ', '\t', '\n', '\r', '<', '>', '/', '=', '\'', '"', '&', ':', '\0', SEP}
  }

  function Qualified(ns: string, name: string): string {
    if ns == "" then name else ns + [SEP] + name
  }

  function Without(attributes: Attributes, key: string): Attributes {
    if attributes == [] then []
    else (if attributes[0].0 == key then [] else [attributes[0]]) + Without(attributes[1..], key)
  }

  function SplitName(text: string): (r: (string, string))
    ensures r.0 + r.1 == text
  {
    if text == "" || !NameChar(text[0]) then ("", text)
    else
      var (name, rest) := SplitName(text[1..]);
      ([text[0]] + name, rest)
  }

  predicate StartsWith(text: string, prefix: string) {
    |prefix| <= |text| && text[..|prefix|] == prefix
  }

  /** One character of data: itself, or the one an entity stands for. */
  function ReadChar(text: string): (r: Option<(char, string)>)
    ensures r.Some? ==> |r.value.1| < |text|
  {
    if text == "" || text[0] == '<' || text[0] == '\0' then None
    else if text[0] != '&' then Some((text[0], text[1..]))
    else if StartsWith(text, "&lt;") then Some(('<', text[4..]))
    else if StartsWith(text, "&gt;") then Some(('>', text[4..]))
    else if StartsWith(text, "&amp;") then Some(('&', text[5..]))
    else if StartsWith(text, "&quot;") then Some(('"', text[6..]))
    else None
  }

  /** An attribute value up to the apostrophe that closes it. */
  function ReadValue(text: string): (r: Option<(string, string)>)
    ensures r.Some? ==> |r.value.1| < |text|
    decreases |text|
  {
    if text != "" && text[0] == '\'' then Some(("", text[1..]))
    else
      match ReadChar(text)
      case None => None
      case Some((c, rest)) =>
        match ReadValue(rest)
        case None => None
        case Some((value, after)) => Some(([c] + value, after))
  }

  /** The rest of a start tag: its attributes, whether it closes itself, what follows. */
  function ReadAttributes(text: string): (r: Option<(Attributes, bool, string)>)
    ensures r.Some? ==> |r.value.2| < |text|
    decreases |text|
  {
    if StartsWith(text, ">") then Some(([], false, text[1..]))
    else if StartsWith(text, "/>") then Some(([], true, text[2..]))
    else if !StartsWith(text, " ") then None
    else
      var (key, rest) := SplitName(text[1..]);
      if key == "" || !StartsWith(rest, "='") then None
      else
        match ReadValue(rest[2..])
        case None => None
        case Some((value, after)) =>
          match ReadAttributes(after)
          case None => None
          case Some((more, empty, tail)) =>
            if Lookup(more, key).Some? then None
            else Some(([(key, value)] + more, empty, tail))
  }

  /** Put events in front of a reading. */
  function Before(events: seq<Event>, r: Reading): Reading {
    match r
    case None => None
    case Some((more, scopes)) => Some((events + more, scopes))
  }

  /** The events of `text` inside the open elements `scopes`, innermost last. */
  function Read(text: string, scopes: seq<Scope>): Reading
    decreases |text|
  {
    if text == "" then Some(([], scopes))
    else if StartsWith(text, "</") then
      var (name, rest) := SplitName(text[2..]);
      if scopes == [] || scopes[|scopes| - 1].name != name || !StartsWith(rest, ">") then None
      else
        var top := scopes[|scopes| - 1];
        Before([End(Qualified(top.ns, name))], Read(rest[1..], scopes[..|scopes| - 1]))
    else if StartsWith(text, "<") then
      ReadElement(text, scopes)
    else
      match ReadChar(text)
      case None => None
      case Some((c, rest)) => Before([Chars([c])], Read(rest, scopes))
  }

  /** A start tag, closed at once or left open. */
  function ReadElement(text: string, scopes: seq<Scope>): Reading
    requires StartsWith(text, "<")
    decreases |text|, 0
  {
    var (name, rest) := SplitName(text[1..]);
    if name == "" || scopes == [] then None
    else
      match ReadAttributes(rest)
      case None => None
      case Some((attributes, empty, tail)) =>
        var ns := match Lookup(attributes, XMLNS)
                  case Some(own) => own
                  case None => scopes[|scopes| - 1].ns;
        var start := Start(Qualified(ns, name), Without(attributes, XMLNS));
        if empty then Before([start, End(Qualified(ns, name))], Read(tail, scopes))
        else Before([start], Read(tail, scopes + [Scope(name, ns)]))
  }
}
