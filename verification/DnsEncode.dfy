/**
 Writing a domain name in src/srv.c, and exactly which names are read back as they were.
 */
module DnsEncode {
  import opened Wrappers
  import opened DnsName

  /** Where the first word of a name ends. */
  function WordEnd(name: seq<Byte>): (k: nat)
    ensures k <= |name|
    ensures DOT !in name[..k] && (k < |name| ==> name[k] == DOT)
  {
    if name == [] || name[0] == DOT then 0
    else
      var k := WordEnd(name[1..]);
      assert name[..k + 1] == [name[0]] + name[1..][..k];
      k + 1
  }

  /** What is left of a name after its first word and the dot behind it. */
  function AfterWord(name: seq<Byte>): (r: seq<Byte>)
    requires name != []
    ensures |r| < |name|
  {
    var k := WordEnd(name);
    if k < |name| then name[k + 1..] else []
  }

  /** The bytes netbuf_add_domain_name writes: the length byte stops at 63, the word does not. */
  function Encode(name: seq<Byte>): seq<Byte>
    decreases |name|
  {
    if name == [] then [0]
    else
      var k := WordEnd(name);
      [if k > 63 then 63 else k] + name[..k] + Encode(AfterWord(name))
  }

  /** netbuf_add_domain_name */
  method AddDomainName(buf: array<Byte>, offset: nat, name: seq<Byte>) returns (offset': nat)
    requires offset + |Encode(name)| <= buf.Length
    modifies buf
    ensures offset' == offset + |Encode(name)|
    ensures buf[..] == old(buf[..offset]) + Encode(name) + old(buf[offset'..])
  {
    hide Encode, WordEnd, AfterWord;
    ghost var whole, all := buf[..], Encode(name);
    ghost var written: seq<Byte> := [];
    var p, word: seq<Byte> := offset, name;
    EncodeNone();
    while word != []
      invariant all == written + Encode(word) && p == offset + |written|
      invariant buf[..] == whole[..offset] + written + whole[p..]
      decreases |word|
    {
      var k := FindWordEnd(word);
      EncodeWord(word);
      ghost var piece: seq<Byte>;
      ghost var before := buf[..];
      ghost var p0 := p;
      p, piece := PutWord(buf, p, word[..k]);
      Spliced(whole, offset, written, before, p0, piece, buf[..]);
      Assoc(written, piece, Encode(AfterWord(word)));
      written := written + piece;
      AfterWordIs(word);
      word := if k < |word| then word[k + 1..] else [];
    }
    ghost var before := buf[..];
    buf[p] := 0;
    offset' := p + 1;
    Spliced(whole, offset, written, before, p, [0], buf[..]);
    assert all == written + [0];
  }

  /** A piece put behind what is already written. */
  lemma {:induction false} Spliced(
    whole: seq<Byte>, offset: nat, written: seq<Byte>, before: seq<Byte>, p: nat, piece: seq<Byte>, after: seq<Byte>)
    requires p == offset + |written| && p + |piece| <= |whole|
    requires before == whole[..offset] + written + whole[p..]
    requires after == before[..p] + piece + before[p + |piece|..]
    ensures after == whole[..offset] + (written + piece) + whole[p + |piece|..]
  {
    assert before[..p] == whole[..offset] + written;
    assert before[p + |piece|..] == whole[p + |piece|..];
  }

  lemma {:induction false} Assoc(a: seq<Byte>, b: seq<Byte>, c: seq<Byte>)
    ensures a + (b + c) == (a + b) + c
  {
  }

  /** One word behind its length byte. */
  method PutWord(buf: array<Byte>, p: nat, word: seq<Byte>) returns (p': nat, ghost piece: seq<Byte>)
    requires p + 1 + |word| <= buf.Length
    modifies buf
    ensures piece == [if |word| > 63 then 63 else |word|] + word && p' == p + |piece|
    ensures buf[..] == old(buf[..p]) + piece + old(buf[p'..])
  {
    var header := if |word| > 63 then 63 else |word|;
    piece := [header] + word;
    buf[p] := header;
    ghost var after := buf[..];
    assert after == old(buf[..p]) + [header] + old(buf[p + 1..]);
    p' := CopyWord(buf, p + 1, word);
    Assoc(old(buf[..p]), [header], word);
    assert after[..p + 1] == old(buf[..p]) + [header];
    assert after[p'..] == old(buf[p'..]);
  }

  method CopyWord(buf: array<Byte>, p: nat, word: seq<Byte>) returns (p': nat)
    requires p + |word| <= buf.Length
    modifies buf
    ensures p' == p + |word| && buf[..] == old(buf[..p]) + word + old(buf[p'..])
  {
    var i := 0;
    while i < |word|
      invariant i <= |word|
      invariant forall k :: 0 <= k < buf.Length ==> buf[k] == if p <= k < p + i then word[k - p] else old(buf[k])
    {
      buf[p + i] := word[i];
      i := i + 1;
    }
    p' := p + i;
  }

  /** The loop that looks for the next dot. */
  method FindWordEnd(name: seq<Byte>) returns (k: nat)
    ensures k == WordEnd(name)
  {
    k := 0;
    while k < |name| && name[k] != DOT
      invariant k <= |name| && WordEnd(name) == k + WordEnd(name[k..])
    {
      assert name[k..][1..] == name[k + 1..];
      k := k + 1;
    }
  }

  lemma {:induction false} AfterWordIs(name: seq<Byte>)
    requires name != []
    ensures var k := WordEnd(name); AfterWord(name) == if k < |name| then name[k + 1..] else []
  {
  }

  lemma {:induction false} EncodeNone()
    ensures Encode([]) == [0]
  {
  }

  lemma {:induction false} EncodeWord(name: seq<Byte>)
    requires name != []
    ensures var k := WordEnd(name);
            Encode(name) == [if k > 63 then 63 else k] + name[..k] + Encode(AfterWord(name))
  {
  }

  // ----- reading back

  /** Every word has 1 to 63 bytes, and no dot stands at the end. The empty name is fine. */
  predicate Proper(name: seq<Byte>)
    decreases |name|
  {
    name == [] || (
      var k := WordEnd(name);
      1 <= k <= 63 && (k < |name| ==> AfterWord(name) != [] && Proper(AfterWord(name))))
  }

  /** `part` stands in `buf` at `p`. */
  predicate Holds(buf: seq<Byte>, p: nat, part: seq<Byte>) {
    p + |part| <= |buf| && buf[p..p + |part|] == part
  }

  lemma {:induction false} Pieces(buf: seq<Byte>, p: nat, h: Byte, w: seq<Byte>, e: seq<Byte>)
    requires e != [] && Holds(buf, p, [h] + w + e)
    ensures p + 1 + |w| < |buf| && buf[p] == h && buf[p + 1..p + 1 + |w|] == w
    ensures Holds(buf, p + 1 + |w|, e)
  {
    var all := [h] + w + e;
    forall i | 0 <= i < |all|
      ensures buf[p + i] == all[i]
    {
      assert buf[p..p + |all|][i] == buf[p + i];
    }
    Part(buf, p, all, 1, w);
    Part(buf, p, all, 1 + |w|, e);
    assert buf[p + 0] == all[0];
  }

  /** A part of what stands in `buf` at `p`, from its place `k` on. */
  lemma {:induction false} Part(buf: seq<Byte>, p: nat, all: seq<Byte>, k: nat, part: seq<Byte>)
    requires p + |all| <= |buf| && forall i :: 0 <= i < |all| ==> buf[p + i] == all[i]
    requires k + |part| <= |all| && forall i :: 0 <= i < |part| ==> all[k + i] == part[i]
    ensures buf[p + k..p + k + |part|] == part
  {
    forall i | 0 <= i < |part|
      ensures buf[p + k..p + k + |part|][i] == part[i]
    {
      assert buf[p + (k + i)] == all[k + i];
    }
  }

  /** The pieces of an encoding in place. */
  lemma {:induction false} WordHeld(buf: seq<Byte>, p: nat, name: seq<Byte>)
    requires name != [] && Holds(buf, p, Encode(name))
    ensures var k := WordEnd(name);
            && p + 1 + k < |buf| && buf[p] == (if k > 63 then 63 else k)
            && buf[p + 1..p + 1 + k] == name[..k]
            && Holds(buf, p + 1 + k, Encode(AfterWord(name)))
            && |Encode(name)| == 1 + k + |Encode(AfterWord(name))|
  {
    hide WordEnd, Holds, Encode;
    var k := WordEnd(name);
    EncodeWord(name);
    EncodeSome(AfterWord(name));
    Pieces(buf, p, if k > 63 then 63 else k, name[..k], Encode(AfterWord(name)));
  }

  lemma {:induction false} EncodeSome(name: seq<Byte>)
    ensures Encode(name) != []
  {
  }

  /** A name is its first word, and the rest behind a dot if there is one. */
  lemma {:induction false} NameParts(name: seq<Byte>)
    requires name != []
    ensures var k := WordEnd(name);
            if k < |name| then name == name[..k] + [DOT] + AfterWord(name)
            else name == name[..k] && AfterWord(name) == []
  {
  }

  lemma {:induction false} JoinFront(first: Label, labels: seq<Label>)
    ensures Join([first] + labels) == if labels == [] then first else first + [DOT] + Join(labels)
  {
    assert ([first] + labels)[1..] == labels;
  }

  /** A proper name is read back, and its encoding ends where it was written. */
  lemma {:induction false} ProperReadsBack(buf: seq<Byte>, p: nat, name: seq<Byte>) returns (n: nat)
    requires Proper(name) && Holds(buf, p, Encode(name))
    ensures Walk(buf, p, n).Some? && Join(Walk(buf, p, n).value) == name
    ensures name != [] ==> Walk(buf, p, n).value != []
    ensures End(buf, p) == p + |Encode(name)|
    decreases |name|
  {
    hide Join, Encode, WordEnd, AfterWord, Walk, End;
    if name == [] {
      JoinNone();
      n := 0;
      EmptyHeld(buf, p, n);
    } else {
      var k, rest := WordEnd(name), AfterWord(name);
      WordHeld(buf, p, name);
      NameParts(name);
      if rest == [] {
        n := ProperReadsBack(buf, p + 1 + k, []);
        EmptyHeld(buf, p + 1 + k, n);
      } else {
        n := ProperReadsBack(buf, p + 1 + k, rest);
      }
      JoinFront(name[..k], Walk(buf, p + 1 + k, n).value);
      LabelHeld(buf, p, n);
      n := n + 1;
    }
  }

  /** A label in front. */
  lemma {:induction false} LabelHeld(buf: seq<Byte>, p: nat, n: nat)
    requires p < |buf| && 0 < buf[p] < 192 && Walk(buf, p + 1 + buf[p], n).Some? && p + 1 + buf[p] <= |buf|
    ensures Walk(buf, p, n + 1) == Some([buf[p + 1..p + 1 + buf[p]]] + Walk(buf, p + 1 + buf[p], n).value)
    ensures End(buf, p) == End(buf, p + 1 + buf[p])
  {
  }

  lemma {:induction false} EmptyHeld(buf: seq<Byte>, p: nat, n: nat)
    requires Holds(buf, p, Encode([]))
    ensures Walk(buf, p, n) == Some([]) && End(buf, p) == p + 1 && |Encode([])| == 1
  {
    EncodeNone();
    assert buf[p] == buf[p..p + 1][0];
  }

  /** A name that is not proper is never read back: the labels met join to something else. */
  lemma {:induction false} ImproperDiffers(buf: seq<Byte>, p: nat, name: seq<Byte>, n: nat)
    requires !Proper(name) && Holds(buf, p, Encode(name)) && Walk(buf, p, n).Some?
    ensures Join(Walk(buf, p, n).value) != name
    decreases |name|
  {
    hide Join, Encode, AfterWord, WordEnd, Walk;
    var k, rest := WordEnd(name), AfterWord(name);
    WordHeld(buf, p, name);
    NameParts(name);
    WalkHere(buf, p, n);
    if buf[p] != 0 {
      LabelMove(buf, p, n);
    }
    if k == 0 {
      JoinNone();
    } else if k > 63 {
      var labels := Walk(buf, p + 64, n - 1).value;
      JoinFront(buf[p + 1..p + 64], labels);
      assert name[63] == name[..k][63] != DOT;
    } else {
      var labels := Walk(buf, p + 1 + k, n - 1).value;
      JoinFront(name[..k], labels);
      if rest == [] {
        EmptyHeld(buf, p + 1 + k, n - 1);
      } else {
        ImproperDiffers(buf, p + 1 + k, rest, n - 1);
        NotBehind(name[..k] + [DOT], Join(labels), rest);
      }
    }
  }

  lemma {:induction false} NotBehind(front: seq<Byte>, a: seq<Byte>, b: seq<Byte>)
    requires a != b
    ensures front + a != front + b
  {
    assert (front + a)[|front|..] == a;
    assert (front + b)[|front|..] == b;
  }

  /** Main result: what was written is read back exactly when the name is proper. */
  lemma {:induction false} ReadsBackIffProper(buf: seq<Byte>, p: nat, name: seq<Byte>)
    requires Holds(buf, p, Encode(name))
    ensures Proper(name) <==> exists n: nat :: Walk(buf, p, n).Some? && Join(Walk(buf, p, n).value) == name
  {
    hide Join, Encode, Walk, Proper, Holds;
    if Proper(name) {
      var n := ProperReadsBack(buf, p, name);
    } else {
      forall n: nat | Walk(buf, p, n).Some?
        ensures Join(Walk(buf, p, n).value) != name
      {
        ImproperDiffers(buf, p, name, n);
      }
    }
  }
}
