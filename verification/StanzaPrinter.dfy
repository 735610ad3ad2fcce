/**
 The printer of src/xmpp-stanza.c: it renders into a buffer that may be too small, keeps
 counting past its end, and is then run once more on a buffer of the size it reported.
 */
module StanzaPrinter {
  import opened Wrappers
  import opened Stanza

  const EOK: int := 0
  const EINVOP: int := -2

  /** First size of the text buffer. */
  const UNIT: nat := 128

  function Min(a: nat, b: nat): nat {
    if a < b then a else b
  }

  /**
   A buffer after a C99 snprintf of `text` at offset `at` with `left` bytes of room: the part
   that fits, then a terminating zero, and nothing at all when there is no room.
   */
  ghost function Printed(buf: seq<char>, at: nat, left: nat, text: string): (r: seq<char>)
    requires left > 0 ==> at + left <= |buf|
    ensures |r| == |buf|
  {
    if left == 0 then buf
    else
      var n := Min(|text|, left - 1);
      buf[..at] + text[..n] + ['\0'] + buf[at + n + 1..]
  }

  /** A second piece goes where the first ended. */
  lemma {:induction false} PrintedInTwo(buf: seq<char>, at: nat, left: nat, a: string, b: string)
    requires left > 0 ==> at + left <= |buf|
    requires |a| < left
    ensures Printed(Printed(buf, at, left, a), at + |a|, left - |a|, b) == Printed(buf, at, left, a + b)
  {
    hide Printed;
    var mid := Printed(buf, at, left, a);
    var twice, once := Printed(mid, at + |a|, left - |a|, b), Printed(buf, at, left, a + b);
    PrintedAt(buf, at, left, a);
    PrintedAt(buf, at, left, a + b);
    PrintedAt(mid, at + |a|, left - |a|, b);
    forall k | 0 <= k < |buf|
      ensures twice[k] == once[k]
    {
      if at <= k < at + Min(|a + b|, left - 1) {
        assert (a + b)[k - at] == if k - at < |a| then a[k - at] else b[k - at - |a|];
      }
    }
  }

  /** What each place of the buffer holds after printing. */
  lemma {:induction false} PrintedAt(buf: seq<char>, at: nat, left: nat, text: string)
    requires 0 < left && at + left <= |buf|
    ensures var r, end := Printed(buf, at, left, text), at + Min(|text|, left - 1);
            forall k :: 0 <= k < |r| ==>
              r[k] == if at <= k < end then text[k - at] else if k == end then '\0' else buf[k]
  {
  }

  /** Once the room is used up, more text changes nothing. */
  lemma {:induction false} PrintedBeyond(buf: seq<char>, at: nat, left: nat, a: string, b: string)
    requires left > 0 ==> at + left <= |buf|
    requires |a| >= left
    ensures Printed(buf, at, left, a) == Printed(buf, at, left, a + b)
  {
    if left > 0 {
      assert (a + b)[..left - 1] == a[..left - 1];
    }
  }

  lemma {:induction false} PrintedNowhere(buf: seq<char>, at: nat, text: string)
    ensures Printed(buf, at, 0, text) == buf
  {
  }

  /** im_snprintf: the length of the whole text, whatever fits. */
  method Snprintf(buf: array<char>, at: nat, left: nat, text: string) returns (ret: int)
    requires left > 0 ==> at + left <= buf.Length
    modifies buf
    ensures ret == |text|
    ensures buf[..] == Printed(old(buf[..]), at, left, text)
  {
    ret := |text|;
    if left == 0 {
      return;
    }
    hide Printed;
    var n, i := Min(|text|, left - 1), 0;
    while i < n
      invariant 0 <= i <= n
      invariant forall k :: 0 <= k < buf.Length ==> buf[k] == if at <= k < at + i then text[k - at] else old(buf[k])
    {
      buf[at + i] := text[i];
      i := i + 1;
    }
    buf[at + n] := '\0';
    PrintedAt(old(buf[..]), at, left, text);
  }

  /** _render_update: a null pointer is offset 0, which no later write can use. */
  method RenderUpdate(written: nat, length: nat, lastwrite: nat, left: nat, at: nat)
    returns (written': nat, left': nat, at': nat)
    requires left == if written <= length then length - written else 0
    ensures written' == written + lastwrite
    ensures left' == if written' <= length then length - written' else 0
    ensures at' == if written' <= length then at + lastwrite else 0
  {
    written' := written + lastwrite;
    if written' > length {
      left', at' := 0, 0;
    } else {
      left', at' := left - lastwrite, at + lastwrite;
    }
  }

  /** The bookkeeping of the renderer: `text` is what it has produced, None when nothing yet. */
  ghost predicate Progress(now: seq<char>, was: seq<char>, at: nat, buflen: nat,
                           text: Option<string>, written: nat, left: nat, ptr: nat)
    requires at + buflen <= |was|
  {
    && written == (if text.Some? then |text.value| else 0)
    && left == (if written <= buflen then buflen - written else 0)
    && ptr == (if written <= buflen then at + written else 0)
    && |now| == |was|
    && now == (if text.Some? then Printed(was, at, buflen, text.value) else was)
  }

  function Then(text: Option<string>, piece: string): string {
    if text.Some? then text.value + piece else piece
  }

  /** One further piece keeps the bookkeeping, whether it fits or not. */
  lemma {:induction false} ProgressStep(was: seq<char>, mid: seq<char>, now: seq<char>, at: nat, buflen: nat,
                     text: Option<string>, piece: string, written: nat, left: nat, ptr: nat,
                     written': nat, left': nat, ptr': nat)
    requires at + buflen <= |was|
    requires Progress(mid, was, at, buflen, text, written, left, ptr)
    requires now == Printed(mid, ptr, left, piece)
    requires written' == written + |piece|
    requires left' == if written' <= buflen then buflen - written' else 0
    requires ptr' == if written' <= buflen then ptr + |piece| else 0
    ensures Progress(now, was, at, buflen, Some(Then(text, piece)), written', left', ptr')
  {
    hide Printed;
    if text.Some? {
      if |text.value| < buflen {
        PrintedInTwo(was, at, buflen, text.value, piece);
      } else {
        PrintedNowhere(mid, ptr, piece);
        PrintedBeyond(was, at, buflen, text.value, piece);
      }
    }
  }

  lemma {:induction false} PrintedFrame(buf: seq<char>, at: nat, left: nat, text: string)
    requires at + left <= |buf|
    ensures SameOutside(Printed(buf, at, left, text), buf, at, left)
  {
  }

  ghost predicate SameOutside(now: seq<char>, was: seq<char>, at: nat, left: nat) {
    |now| == |was| && forall k :: 0 <= k < |was| && !(at <= k < at + left) ==> now[k] == was[k]
  }

  /** The pair of calls that follows every piece of text: im_snprintf and _render_update. */
  method Emit(buf: array<char>, ghost was: seq<char>, ghost at: nat, buflen: nat, ghost text: Option<string>,
              piece: string, written: nat, left: nat, ptr: nat)
    returns (written': nat, left': nat, ptr': nat)
    requires at + buflen <= |was|
    requires Progress(buf[..], was, at, buflen, text, written, left, ptr)
    modifies buf
    ensures Progress(buf[..], was, at, buflen, Some(Then(text, piece)), written', left', ptr')
  {
    ghost var mid := buf[..];
    var ret := Snprintf(buf, ptr, left, piece);
    written', left', ptr' := RenderUpdate(written, buflen, ret, left, ptr);
    ProgressStep(was, mid, buf[..], at, buflen, text, piece, written, left, ptr, written', left', ptr');
  }

  lemma {:induction false} NoAttributes(parent: Option<Attributes>)
    ensures AttributesText([], parent) == ""
  {
  }

  lemma {:induction false} NextAttribute(attributes: Attributes, i: nat, parent: Option<Attributes>)
    requires i < |attributes|
    ensures var (key, value) := attributes[i];
            AttributesText(attributes[i..], parent)
            == (if Redundant(key, value, parent) then "" else " " + key + "='" + Escape(value) + "'")
               + AttributesText(attributes[i + 1..], parent)
  {
    hide Redundant, Escape;
    assert attributes[i..][1..] == attributes[i + 1..];
  }

  /** The loop over the attribute table. */
  method RenderAttributes(attributes: Attributes, parent: Option<Attributes>, buf: array<char>,
                          ghost was: seq<char>, ghost at: nat, buflen: nat, ghost text: string,
                          written: nat, left: nat, ptr: nat)
    returns (written': nat, left': nat, ptr': nat)
    requires at + buflen <= |was|
    requires Progress(buf[..], was, at, buflen, Some(text), written, left, ptr)
    modifies buf
    ensures Progress(buf[..], was, at, buflen, Some(text + AttributesText(attributes, parent)),
                     written', left', ptr')
  {
    hide Printed, Escape, Progress, Redundant, AttributesText;
    written', left', ptr' := written, left, ptr;
    ghost var sofar := text;
    NoAttributes(parent);
    assert attributes[0..] == attributes;
    var i := 0;
    while i < |attributes|
      invariant 0 <= i <= |attributes|
      invariant Progress(buf[..], was, at, buflen, Some(sofar), written', left', ptr')
      invariant sofar + AttributesText(attributes[i..], parent) == text + AttributesText(attributes, parent)
    {
      var (key, value) := attributes[i];
      NextAttribute(attributes, i, parent);
      if !Redundant(key, value, parent) {
        var piece := " " + key + "='" + Escape(value) + "'";
        written', left', ptr' := Emit(buf, was, at, buflen, Some(sofar), piece, written', left', ptr');
        assert sofar + (piece + AttributesText(attributes[i + 1..], parent))
            == (sofar + piece) + AttributesText(attributes[i + 1..], parent);
        sofar := sofar + piece;
      }
      i := i + 1;
    }
    assert attributes[i..] == [] && sofar + "" == sofar;
  }

  /**
   _render_stanza_recursive.  The result is the length of the whole text even when the room
   of `buflen` bytes at `base` is too small, and no byte outside that room is written.
   */
  method RenderRecursive(t: Stanza, parent: Option<Attributes>, buf: array<char>, base: nat, buflen: nat)
    returns (ret: int)
    requires base + buflen <= buf.Length
    modifies buf
    ensures Render(t, parent).None? ==> ret == EINVOP
    ensures Render(t, parent).Some? ==>
              && ret == |Render(t, parent).value|
              && buf[..] == Printed(old(buf[..]), base, buflen, Render(t, parent).value)
    ensures SameOutside(buf[..], old(buf[..]), base, buflen)
    decreases t
  {
    hide Printed, Escape;
    ghost var was := buf[..];
    match t {
      case Unknown => return EINVOP;
      case Text(None) => return EINVOP;
      case Text(Some(data)) =>
        var written, left, ptr := Emit(buf, was, base, buflen, None, Escape(data), 0, buflen, base);
        ret := written;
      case Tag(None, _, _) => return EINVOP;
      case Tag(Some(name), attributes, children) =>
        ret := RenderTag(name, attributes, children, parent, buf, base, buflen);
    }
    if ret >= 0 {
      PrintedFrame(was, base, buflen, Render(t, parent).value);
    }
  }

  /** The branch for elements: start tag, attributes, children, end tag. */
  method RenderTag(name: string, attributes: Attributes, children: seq<Stanza>, parent: Option<Attributes>,
                   buf: array<char>, base: nat, buflen: nat)
    returns (ret: int)
    requires base + buflen <= buf.Length
    modifies buf
    ensures var t := Tag(Some(name), attributes, children);
            if Render(t, parent).None? then ret == EINVOP
            else ret == |Render(t, parent).value|
                 && buf[..] == Printed(old(buf[..]), base, buflen, Render(t, parent).value)
    ensures ret < 0 ==> SameOutside(buf[..], old(buf[..]), base, buflen)
    decreases children, 1
  {
    hide Printed, Escape, AttributesText;
    ghost var was := buf[..];
    var written, left, ptr := Emit(buf, was, base, buflen, None, "<" + name, 0, buflen, base);
    written, left, ptr := RenderAttributes(attributes, parent, buf, was, base, buflen, "<" + name,
                                           written, left, ptr);
    ghost var head := "<" + name + AttributesText(attributes, parent);
    if children == [] {
      written, left, ptr := Emit(buf, was, base, buflen, Some(head), "/>", written, left, ptr);
      return written;
    }
    written, left, ptr := Emit(buf, was, base, buflen, Some(head), ">", written, left, ptr);
    ret, written, left, ptr := RenderChildren(children, Some(attributes), buf, was, base, buflen, head + ">",
                                              written, left, ptr);
    if ret < 0 {
      return ret;
    }
    ghost var inner := RenderAll(children, Some(attributes)).value;
    written, left, ptr := Emit(buf, was, base, buflen, Some(head + ">" + inner), "</" + name + ">",
                               written, left, ptr);
    assert head + ">" + inner + ("</" + name + ">") == head + ">" + inner + "</" + name + ">";
    return written;
  }

  /** The loop over the children, each rendered into the room that is left. */
  method RenderChildren(ts: seq<Stanza>, parent: Option<Attributes>, buf: array<char>,
                        ghost was: seq<char>, ghost at: nat, buflen: nat, ghost text: string,
                        written: nat, left: nat, ptr: nat)
    returns (ret: int, written': nat, left': nat, ptr': nat)
    requires at + buflen <= |was|
    requires Progress(buf[..], was, at, buflen, Some(text), written, left, ptr)
    modifies buf
    ensures RenderAll(ts, parent).None? ==> ret == EINVOP && SameOutside(buf[..], was, at, buflen)
    ensures RenderAll(ts, parent).Some? ==>
              && ret >= 0
              && Progress(buf[..], was, at, buflen, Some(text + RenderAll(ts, parent).value), written', left', ptr')
    decreases ts, 0
  {
    hide Printed, Render;
    written', left', ptr' := written, left, ptr;
    ret := 0;
    ghost var sofar := text;
    var i := 0;
    while i < |ts|
      invariant 0 <= i <= |ts|
      invariant ret >= 0
      invariant Progress(buf[..], was, at, buflen, Some(sofar), written', left', ptr')
      invariant RenderAll(ts[i..], parent).Some? <==> RenderAll(ts, parent).Some?
      invariant RenderAll(ts, parent).Some? ==>
                  sofar + RenderAll(ts[i..], parent).value == text + RenderAll(ts, parent).value
    {
      assert ts[i..][1..] == ts[i + 1..];
      ghost var mid := buf[..];
      PrintedFrame(was, at, buflen, sofar);
      ret := RenderRecursive(ts[i], parent, buf, ptr', left');
      if ret < 0 {
        return;
      }
      ghost var piece := Render(ts[i], parent).value;
      ghost var before := (written', left', ptr');
      written', left', ptr' := RenderUpdate(written', buflen, ret, left', ptr');
      ProgressStep(was, mid, buf[..], at, buflen, Some(sofar), piece, before.0, before.1, before.2,
                   written', left', ptr');
      if RenderAll(ts[i + 1..], parent).Some? {
        assert sofar + (piece + RenderAll(ts[i + 1..], parent).value)
            == (sofar + piece) + RenderAll(ts[i + 1..], parent).value;
      }
      sofar := sofar + piece;
      i := i + 1;
    }
    assert sofar + "" == sofar;
  }

  /**
   xmpp_stanza_to_text: on success the buffer holds the complete text and a terminating zero,
   after at most one regrow; it fails exactly when some node of the tree cannot be rendered.
   */
  method ToText(t: Stanza, parent: Option<Attributes>) returns (ret: int, buf: array<char>, buflen: nat)
    ensures Render(t, parent).None? ==> ret == EINVOP
    ensures Render(t, parent).Some? ==>
              && ret == EOK && buflen == |Render(t, parent).value| && buflen < buf.Length
              && buf[..buflen] == Render(t, parent).value && buf[buflen] == '\0'
              && buf.Length == if buflen < 128 then 128 else buflen + 1
  {
    hide Printed, Render;
    var length := UNIT;
    buf, buflen := new char[length], 0;
    ghost var blank := buf[..];
    ret := RenderRecursive(t, parent, buf, 0, length);
    if ret < 0 {
      return;
    }
    if ret > length - 1 {
      length := ret + 1;
      buf := new char[length];
      blank := buf[..];
      ret := RenderRecursive(t, parent, buf, 0, length);
    }
    ghost var text := Render(t, parent).value;
    PrintedAt(blank, 0, length, text);
    assert forall k :: 0 <= k < |text| ==> buf[k] == buf[..][k] == text[k];
    assert buf[|text|] == buf[..][|text|] == '\0';
    buf[length - 1] := '\0';
    buflen := ret;
    ret := EOK;
  }
}
