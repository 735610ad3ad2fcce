/**
 Names and character data of XML 1.0 (fifth edition) over UTF-8 text, whose bytes are the
 characters 0 to 255 of a string.
 */
module XmlText {
  import opened Wrappers

  /** The six low bits of a continuation byte. */
  function Low(c: char): Option<nat> {
    if 0x80 <= c as int < 0xC0 then Some(c as int - 0x80) else None
  }

  /** The first character of UTF-8 text (section 3 of RFC 3629) and the number of its bytes. */
  function First(s: string): (r: Option<(nat, nat)>)
    requires s != ""
    ensures r.Some? ==> 1 <= r.value.1 <= |s|
  {
    var a, n := s[0] as int, |s|;
    var b := if n > 1 then Low(s[1]) else None;
    var c := if n > 2 then Low(s[2]) else None;
    var d := if n > 3 then Low(s[3]) else None;
    if a < 0x80 then Some((a, 1))
    else if 0xC2 <= a < 0xE0 && b.Some? then Some(((a - 0xC0) * 0x40 + b.value, 2))
    else if 0xE0 <= a < 0xF0 && b.Some? && c.Some? then
      var v := (a - 0xE0) * 0x1000 + b.value * 0x40 + c.value;
      if 0x800 <= v < 0xD800 || 0xE000 <= v then Some((v, 3)) else None
    else if 0xF0 <= a < 0xF5 && b.Some? && c.Some? && d.Some? then
      var v := (a - 0xF0) * 0x4_0000 + b.value * 0x1000 + c.value * 0x40 + d.value;
      if 0x1_0000 <= v < 0x11_0000 then Some((v, 4)) else None
    else None
  }

  /** Char, production 2. */
  predicate XmlChar(v: nat) {
    v == 0x9 || v == 0xA || v == 0xD || 0x20 <= v < 0xD800 || 0xE000 <= v < 0xFFFE || 0x1_0000 <= v < 0x11_0000
  }

  /** NameStartChar, production 4. */
  predicate NameStart(v: nat) {
    || v == 0x3A || 0x41 <= v <= 0x5A || v == 0x5F || 0x61 <= v <= 0x7A
    || 0xC0 <= v <= 0xD6 || 0xD8 <= v <= 0xF6 || 0xF8 <= v <= 0x2FF || 0x370 <= v <= 0x37D || 0x37F <= v <= 0x1FFF
    || 0x200C <= v <= 0x200D || 0x2070 <= v <= 0x218F || 0x2C00 <= v <= 0x2FEF || 0x3001 <= v <= 0xD7FF
    || 0xF900 <= v <= 0xFDCF || 0xFDF0 <= v <= 0xFFFD || 0x1_0000 <= v <= 0xE_FFFF
  }

  /** NameChar, production 4a. */
  predicate NameRest(v: nat) {
    || NameStart(v) || v == 0x2D || v == 0x2E || 0x30 <= v <= 0x39 || v == 0xB7
    || 0x300 <= v <= 0x36F || 0x203F <= v <= 0x2040
  }

  /** Any number of characters that may stand in a document. */
  predicate XmlData(s: string) {
    s == "" || (First(s).Some? && XmlChar(First(s).value.0) && XmlData(s[First(s).value.1..]))
  }

  predicate NameTail(s: string) {
    s == "" || (First(s).Some? && NameRest(First(s).value.0) && NameTail(s[First(s).value.1..]))
  }

  /** Name, production 5. */
  predicate XmlName(s: string) {
    s != "" && First(s).Some? && NameStart(First(s).value.0) && NameTail(s[First(s).value.1..])
  }

  predicate Ascii(s: string) {
    forall k :: 0 <= k < |s| ==> s[k] as int < 0x80
  }

  /** The opening of a comment is no name, and a control character is no data. */
  lemma {:induction false} NotWellFormed()
    ensures !XmlName("!--") && !XmlName("1st") && !XmlData("\U{1}")
  {
  }

  /** A name and a text in UTF-8. */
  lemma {:induction false} WellFormed()
    ensures XmlName("iq") && XmlData("\U{C3}\U{A9}")
  {
    assert "iq"[1..] == "q" && "q"[1..] == "";
    var text := "\U{C3}\U{A9}";
    assert text[2..] == "";
  }
}
