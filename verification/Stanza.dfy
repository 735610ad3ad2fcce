/**
 The stanza tree and its textual form (src/xmpp-stanza.c), as values. The characters of a string
 are the bytes of UTF-8 text.

 Attributes are listed in the order the hash table yields them.  A name or text that is
 empty is stored by the C setters as a null pointer (src/stringutils.c), hence None.
 */
module Stanza {
  import opened Wrappers

  const NS_CLIENT := "jabber:client"
  const XMLNS := "xmlns"

  type Attributes = seq<(string, string)>

  datatype Stanza =
    | Unknown
    | Text(data: Option<string>)
    | Tag(name: Option<string>, attributes: Attributes, children: seq<Stanza>)

  /** hash_get on the attribute table. */
  function Lookup(attributes: Attributes, key: string): Option<string> {
    if attributes == [] then None
    else if attributes[0].0 == key then Some(attributes[0].1)
    else Lookup(attributes[1..], key)
  }

  function EscapeChar(c: char): string {
    match c
    case '<' => "&lt;"
    case '>' => "&gt;"
    case '&' => "&amp;"
    case '"' => "&quot;"
    case _ => [c]
  }

  function Escape(s: string): string {
    if s == "" then "" else EscapeChar(s[0]) + Escape(s[1..])
  }

  /** A default namespace is dropped when the parent has the same, or at the top for the client's. */
  predicate Redundant(key: string, value: string, parent: Option<Attributes>) {
    key == XMLNS
    && (match parent
        case Some(above) => Lookup(above, XMLNS) == Some(value)
        case None => value == NS_CLIENT)
  }

  function AttributesText(attributes: Attributes, parent: Option<Attributes>): string {
    if attributes == [] then ""
    else
      var (key, value) := attributes[0];
      (if Redundant(key, value, parent) then "" else " " + key + "='" + Escape(value) + "'")
      + AttributesText(attributes[1..], parent)
  }

  /** The text of a tree below `parent`, or None when a node in it cannot be rendered. */
  function Render(t: Stanza, parent: Option<Attributes>): Option<string> {
    match t
    case Unknown => None
    case Text(None) => None
    case Text(Some(data)) => Some(Escape(data))
    case Tag(None, _, _) => None
    case Tag(Some(name), attributes, children) =>
      var head := "<" + name + AttributesText(attributes, parent);
      if children == [] then Some(head + "/>")
      else
        match RenderAll(children, Some(attributes))
        case None => None
        case Some(inner) => Some(head + ">" + inner + "</" + name + ">")
  }

  function RenderAll(ts: seq<Stanza>, parent: Option<Attributes>): Option<string> {
    if ts == [] then Some("")
    else
      match (Render(ts[0], parent), RenderAll(ts[1..], parent))
      case (Some(first), Some(rest)) => Some(first + rest)
      case _ => None
  }

  // ----- what never stands in a text

  /** Escaped text holds no `<`, `>` or quotation mark, and every `&` in it opens an entity. */
  lemma {:induction false} EscapedIsClean(s: string)
    ensures '<' !in Escape(s) && '>' !in Escape(s) && '"' !in Escape(s)
    ensures Opens(Escape(s))
  {
    if s == "" {
    } else {
      CharIsClean(s[0]);
      EscapedIsClean(s[1..]);
      hide EscapeChar, Opens;
      OpensTwice(EscapeChar(s[0]), Escape(s[1..]));
    }
  }

  /** Every `&` opens an entity. */
  predicate Opens(s: string) {
    forall k :: 0 <= k < |s| && s[k] == '&' ==> EntityAt(s, k)
  }

  lemma {:induction false} OpensTwice(first: string, rest: string)
    requires Opens(first) && Opens(rest)
    ensures Opens(first + rest)
  {
    hide EntityAt;
    forall k | 0 <= k < |first + rest| && (first + rest)[k] == '&'
      ensures EntityAt(first + rest, k)
    {
      if k < |first| {
        EntityStays("", first, rest, k);
        assert "" + first + rest == first + rest;
      } else {
        EntityStays(first, rest, "", k - |first|);
        assert first + rest + "" == first + rest;
      }
    }
  }

  predicate OpensWith(s: string, entity: string) {
    |entity| <= |s| && s[..|entity|] == entity
  }

  predicate EntityAt(s: string, k: nat)
    requires k <= |s|
  {
    OpensWith(s[k..], "&lt;") || OpensWith(s[k..], "&gt;") || OpensWith(s[k..], "&amp;") || OpensWith(s[k..], "&quot;")
  }

  lemma {:induction false} CharIsClean(c: char)
    ensures '<' !in EscapeChar(c) && '>' !in EscapeChar(c) && '"' !in EscapeChar(c)
    ensures Opens(EscapeChar(c))
  {
    var e := EscapeChar(c);
    assert forall k :: 1 <= k < |e| ==> e[k] != '&';
    assert e[0..] == e;
    assert e[0] == '&' ==> OpensWith(e, "&lt;") || OpensWith(e, "&gt;") || OpensWith(e, "&amp;") || OpensWith(e, "&quot;");
    hide EscapeChar, OpensWith;
  }

  lemma {:induction false} EntityStays(before: string, s: string, after: string, k: nat)
    requires k <= |s| && EntityAt(s, k)
    ensures EntityAt(before + s + after, |before| + k)
  {
    var all := before + s + after;
    assert all[|before| + k..] == s[k..] + after;
    StillOpens(s[k..], after, "&lt;");
    StillOpens(s[k..], after, "&gt;");
    StillOpens(s[k..], after, "&amp;");
    StillOpens(s[k..], after, "&quot;");
  }

  lemma {:induction false} StillOpens(s: string, after: string, entity: string)
    ensures OpensWith(s, entity) ==> OpensWith(s + after, entity)
  {
    if OpensWith(s, entity) {
      assert (s + after)[..|entity|] == s[..|entity|];
    }
  }

  /** An attribute is left out exactly when it is the default namespace that is in force anyway. */
  lemma {:induction false} LeftOutIffInherited(key: string, value: string, parent: Option<Attributes>)
    ensures AttributesText([(key, value)], parent) == ""
       <==> key == "xmlns" && (if parent.Some? then Lookup(parent.value, "xmlns") == Some(value) else value == "jabber:client")
    ensures AttributesText([(key, value)], parent) != "" ==>
              AttributesText([(key, value)], parent) == " " + key + "='" + Escape(value) + "'"
  {
    assert [(key, value)][1..] == [];
    hide Escape;
    var text := " " + key + "='" + Escape(value) + "'";
    assert text + "" == text;
  }
}
