/**
 The Base64 coder of src/base64.c: the loops as written, with `char` signed. What decoding gives
 back of an encoded text, exactly when that is the text itself, and exactly when the decoder
 stays inside its block.
 */
module Base64 {
  import opened Wrappers
  import opened SignedChar

  type Bytes = seq<bv8>

  // ----- the two tables

  const PAD: bv8 := 61

  /** _base64_charmap */
  function CharMap(h: bv8): bv8 {
    if h < 26 then 65 + h
    else if h < 52 then 71 + h
    else if h < 62 then h - 4
    else if h == 62 then 43
    else if h == 63 then 47
    else PAD
  }

  /** What stands for a look-up with a negative index, in front of the table. */
  const OUTSIDE: bv8 := 255

  /** _base64_invcharmap at `(int) c`: 64 for the padding character, 65 for an invalid one. */
  function InvMap(c: bv8): bv8 {
    if c >= 128 then OUTSIDE
    else if 65 <= c <= 90 then c - 65
    else if 97 <= c <= 122 then c - 71
    else if 48 <= c <= 57 then c + 4
    else if c == 43 then 62
    else if c == 47 then 63
    else if c == PAD then 64
    else 65
  }

  lemma {:induction false} MapsAreInverse(h: bv8, c: bv8)
    ensures h <= 64 ==> InvMap(CharMap(h)) == h
    ensures InvMap(c) <= 64 ==> CharMap(InvMap(c)) == c
  {
  }

  // ----- three bytes and four hextets

  /** Three characters in a word; the sign of a later one spreads over those before it. */
  function Word3(a: bv8, b: bv8, c: bv8): bv32 {
    (Extended(a) << 16) | (Extended(b) << 8) | Extended(c)
  }

  /** The three bytes that the word of a group holds. */
  function Smear(a: bv8, b: bv8, c: bv8): Bytes {
    [if b < 128 && c < 128 then a else 255, if c < 128 then b else 255, c]
  }

  function Hextet0(w: bv32): bv8 { ((w & 0x00FC0000) >> 18) as bv8 }
  function Hextet1(w: bv32): bv8 { ((w & 0x0003F000) >> 12) as bv8 }
  function Hextet2(w: bv32): bv8 { ((w & 0x00000FC0) >> 6) as bv8 }
  function Hextet3(w: bv32): bv8 { (w & 0x0000003F) as bv8 }

  function Word4(p: bv8, q: bv8, r: bv8, s: bv8): bv32 {
    ((p as bv32) << 18) | ((q as bv32) << 12) | ((r as bv32) << 6) | (s as bv32)
  }

  function Byte0(w: bv32): bv8 { ((w & 0x00FF0000) >> 16) as bv8 }
  function Byte1(w: bv32): bv8 { ((w & 0x0000FF00) >> 8) as bv8 }
  function Byte2(w: bv32): bv8 { (w & 0x000000FF) as bv8 }

  lemma {:induction false} WordBack(a: bv8, b: bv8, c: bv8)
    ensures var w := Word3(a, b, c);
            var v := Word4(Hextet0(w), Hextet1(w), Hextet2(w), Hextet3(w));
            [Byte0(v), Byte1(v), Byte2(v)] == Smear(a, b, c)
  {
  }

  lemma {:induction false} HextetsSmall(w: bv32)
    ensures Hextet0(w) < 64 && Hextet1(w) < 64 && Hextet2(w) < 64 && Hextet3(w) < 64
  {
  }

  // ----- encoding

  function Quad(a: bv8, b: bv8, c: bv8): Bytes {
    var w := Word3(a, b, c);
    [CharMap(Hextet0(w)), CharMap(Hextet1(w)), CharMap(Hextet2(w)), CharMap(Hextet3(w))]
  }

  function LastOne(a: bv8): Bytes {
    [CharMap((a & 0xFC) >> 2), CharMap((a & 0x03) << 4), CharMap(64), CharMap(64)]
  }

  function LastTwo(a: bv8, b: bv8): Bytes {
    [CharMap((a & 0xFC) >> 2), CharMap(((a & 0x03) << 4) | ((b & 0xF0) >> 4)), CharMap((b & 0x0F) << 2), CharMap(64)]
  }

  /** Base64 as in section 3 of RFC 3548: groups of three bytes from the front. */
  function Encode(b: Bytes): Bytes {
    if |b| >= 3 then Quad(b[0], b[1], b[2]) + Encode(b[3..])
    else if |b| == 2 then LastTwo(b[0], b[1])
    else if |b| == 1 then LastOne(b[0])
    else []
  }

  function EncodedLen(len: nat): nat { (len + 2) / 3 * 4 }

  lemma {:induction false} EncodeLength(b: Bytes)
    ensures |Encode(b)| == EncodedLen(|b|)
  {
    hide CharMap, Word3, Hextet0, Hextet1, Hextet2, Hextet3;
    if |b| >= 3 {
      EncodeLength(b[3..]);
    }
  }

  /** What the whole groups before place `i` and the rest from there on give together. */
  lemma {:induction false} EncodeStep(b: Bytes, i: nat)
    requires i + 3 <= |b|
    ensures Encode(b[i..]) == Quad(b[i], b[i + 1], b[i + 2]) + Encode(b[i + 3..])
  {
    assert b[i..][3..] == b[i + 3..];
  }

  method PutQuad(cbuf: array<bv8>, c: nat, quad: Bytes)
    requires c + 4 <= cbuf.Length && |quad| == 4
    modifies cbuf
    ensures cbuf[..c + 4] == old(cbuf[..c]) + quad
  {
    cbuf[c] := quad[0];
    cbuf[c + 1] := quad[1];
    cbuf[c + 2] := quad[2];
    cbuf[c + 3] := quad[3];
  }

  /** base64_encode: the text fills the buffer exactly, up to its terminal null. */
  method EncodeBuffer(buffer: Bytes) returns (cbuf: array<bv8>)
    requires |buffer| >= 2
    ensures fresh(cbuf) && cbuf[..] == Encode(buffer) + [0]
  {
    hide Encode, CharMap, Word3, Hextet0, Hextet1, Hextet2, Hextet3;
    var len := |buffer|;
    EncodeLength(buffer);
    cbuf := new bv8[EncodedLen(len) + 1];
    ghost var all := Encode(buffer);
    var c, i := 0, 0;
    assert buffer[0..] == buffer;
    while i < len - 2
      invariant i <= len && c + |Encode(buffer[i..])| == |all|
      invariant cbuf[..c] + Encode(buffer[i..]) == all
    {
      EncodeStep(buffer, i);
      var word := Word3(buffer[i], buffer[i + 1], buffer[i + 2]);
      ghost var before := cbuf[..c];
      PutQuad(cbuf, c, [CharMap(Hextet0(word)), CharMap(Hextet1(word)), CharMap(Hextet2(word)), CharMap(Hextet3(word))]);
      assert cbuf[..c + 4] == before + Quad(buffer[i], buffer[i + 1], buffer[i + 2]);
      c := c + 4;
      i := i + 3;
    }
    c := PutLast(cbuf, c, buffer, i);
    cbuf[c] := 0;
    assert cbuf[..c] == all;
  }

  /** Zero, one or two bytes left. */
  method PutLast(cbuf: array<bv8>, c0: nat, buffer: Bytes, i: nat) returns (c: nat)
    requires |buffer| - 2 <= i <= |buffer| && c0 + |Encode(buffer[i..])| < cbuf.Length
    modifies cbuf
    ensures c == c0 + |Encode(buffer[i..])| && cbuf[..c] == old(cbuf[..c0]) + Encode(buffer[i..])
  {
    hide Encode, CharMap;
    EncodeEnd(buffer, i);
    var len := |buffer|;
    c := c0;
    if len - i == 1 {
      PutQuad(cbuf, c, LastOne(buffer[len - 1]));
      c := c + 4;
    } else if len - i == 2 {
      PutQuad(cbuf, c, LastTwo(buffer[len - 2], buffer[len - 1]));
      c := c + 4;
    }
  }

  lemma {:induction false} EncodeEnd(b: Bytes, i: nat)
    requires |b| - 2 <= i <= |b|
    ensures i == |b| ==> Encode(b[i..]) == []
    ensures i + 1 == |b| ==> Encode(b[i..]) == LastOne(b[|b| - 1])
    ensures i + 2 == |b| ==> Encode(b[i..]) == LastTwo(b[|b| - 2], b[|b| - 1])
  {
  }

  // ----- decoding

  predicate Plain(c: bv8) { InvMap(c) & 0xC0 == 0 }

  predicate PlainGroup(p: bv8, q: bv8, r: bv8, s: bv8) { Plain(p) && Plain(q) && Plain(r) && Plain(s) }

  function Bytes3(p: bv8, q: bv8, r: bv8, s: bv8): Bytes {
    var w := Word4(InvMap(p), InvMap(q), InvMap(r), InvMap(s));
    [Byte0(w), Byte1(w), Byte2(w)]
  }

  /** The value at which the loop leaves a group of four, or the last one if it does not. */
  function StopValue(p: bv8, q: bv8, r: bv8, s: bv8): bv8 {
    if !Plain(p) then InvMap(p) else if !Plain(q) then InvMap(q) else if !Plain(r) then InvMap(r) else InvMap(s)
  }

  /** The loop over groups of four: the bytes so far, and the last value looked at. */
  function Scan(t: Bytes): (Bytes, bv8)
    requires |t| % 4 == 0 && t != []
  {
    if PlainGroup(t[0], t[1], t[2], t[3]) then
      if |t| == 4 then (Bytes3(t[0], t[1], t[2], t[3]), InvMap(t[3]))
      else
        var (rest, stop) := Scan(t[4..]);
        (Bytes3(t[0], t[1], t[2], t[3]) + rest, stop)
    else ([], StopValue(t[0], t[1], t[2], t[3]))
  }

  /** base64_decoded_len */
  function DecodedLen(t: Bytes): nat
    requires |t| % 4 == 0 && t != []
  {
    var n := |t|;
    if InvMap(t[n - 1]) < 64 then 3 * (n / 4)
    else if InvMap(t[n - 1]) == 64 then
      if InvMap(t[n - 2]) < 64 then 3 * (n / 4) - 1
      else if InvMap(t[n - 2]) == 64 && InvMap(t[n - 3]) < 64 then 3 * (n / 4) - 2
      else 0
    else 0
  }

  /** base64_decoded_len looks up one of the last three characters outside the table. */
  predicate LenStrays(t: Bytes)
    requires |t| % 4 == 0 && t != []
  {
    var n := |t|;
    || InvMap(t[n - 1]) == OUTSIDE
    || (InvMap(t[n - 1]) == 64 && (InvMap(t[n - 2]) == OUTSIDE || (InvMap(t[n - 2]) == 64 && InvMap(t[n - 3]) == OUTSIDE)))
  }

  /** A value that must not stand where it was found. */
  function Refusal<T>(value: bv8): Outcome<T> {
    if value == OUTSIDE then Stray else Failed
  }

  /** The last group once more, by the number of bytes it holds. */
  function Tail(p: bv8, q: bv8, r: bv8, s: bv8, bytes: nat): Outcome<Bytes> {
    if bytes == 0 then Done([])
    else if !Plain(p) then Refusal(InvMap(p))
    else if !Plain(q) then Refusal(InvMap(q))
    else if bytes == 1 then
      if InvMap(r) != 64 then Refusal(InvMap(r))
      else if InvMap(s) != 64 then Refusal(InvMap(s))
      else Done([(InvMap(p) << 2) | (InvMap(q) >> 4)])
    else if !Plain(r) then Refusal(InvMap(r))
    else if InvMap(s) != 64 then Refusal(InvMap(s))
    else
      var w := ((InvMap(p) as bv32) << 10) | ((InvMap(q) as bv32) << 4) | ((InvMap(r) as bv32) >> 2);
      Done([Byte1(w), Byte2(w)])
  }

  /** The bytes of the loop, if padding or the end stopped it, and those of the last group. */
  function Finish(data: Bytes, stop: bv8, tail: Outcome<Bytes>): Outcome<Bytes> {
    if stop > 64 then Refusal(stop)
    else
      match tail
      case Done(bytes) => Done(data + bytes)
      case Failed => Failed
      case Stray => Stray
  }

  /** base64_decode on a block with room for every byte. */
  function Decode(t: Bytes): Outcome<Bytes>
    requires t != []
  {
    if |t| % 4 != 0 then Failed
    else if LenStrays(t) then Stray
    else
      var n := |t|;
      Finish(Scan(t).0, Scan(t).1, Tail(t[n - 4], t[n - 3], t[n - 2], t[n - 1], DecodedLen(t) % 3))
  }

  /** The block of `DecodedLen(t) + 1` bytes holds what the loop stores. */
  predicate Roomy(t: Bytes)
    requires t != []
  {
    |t| % 4 == 0 && !LenStrays(t) ==> DecodedLen(t) > 0 || !PlainGroup(t[0], t[1], t[2], t[3])
  }

  /** base64_decode on the block it allocates. */
  function Decoded(t: Bytes): Outcome<Bytes>
    requires t != []
  {
    if Roomy(t) then Decode(t) else Stray
  }

  /** A plain group in front only adds its bytes. */
  lemma {:induction false} DecodeFront(q: Bytes, t: Bytes)
    requires |q| == 4 && t != [] && |t| % 4 == 0
    requires PlainGroup(q[0], q[1], q[2], q[3])
    ensures Decode(q + t) == if Decode(t).Done? then Done(Bytes3(q[0], q[1], q[2], q[3]) + Decode(t).value) else Decode(t)
  {
    hide PlainGroup, InvMap, Bytes3, Tail, StopValue, DecodedLen, Finish, LenStrays, Scan;
    var u, m := q + t, |t|;
    ScanFront(q, t);
    EndsAlike(q, t);
    DecodedLenFront(u, t);
    var tail := Tail(t[m - 4], t[m - 3], t[m - 2], t[m - 1], DecodedLen(t) % 3);
    FinishFront(Bytes3(q[0], q[1], q[2], q[3]), Scan(t).0, Scan(t).1, tail);
  }

  lemma {:induction false} EndsAlike(q: Bytes, t: Bytes)
    requires |q| == 4 && t != [] && |t| % 4 == 0
    ensures var (u, n, m) := (q + t, |t| + 4, |t|);
            && u[n - 4] == t[m - 4] && u[n - 3] == t[m - 3] && u[n - 2] == t[m - 2] && u[n - 1] == t[m - 1]
            && LenStrays(u) == LenStrays(t)
  {
    hide InvMap;
  }

  lemma {:induction false} FinishFront(front: Bytes, data: Bytes, stop: bv8, tail: Outcome<Bytes>)
    ensures var r := Finish(data, stop, tail);
            Finish(front + data, stop, tail) == if r.Done? then Done(front + r.value) else r
  {
    if tail.Done? {
      assert (front + data) + tail.value == front + (data + tail.value);
    }
  }

  lemma {:induction false} ScanFront(q: Bytes, t: Bytes)
    requires |q| == 4 && t != [] && |t| % 4 == 0
    requires PlainGroup(q[0], q[1], q[2], q[3])
    ensures Scan(q + t) == (Bytes3(q[0], q[1], q[2], q[3]) + Scan(t).0, Scan(t).1)
  {
    hide PlainGroup, InvMap, Bytes3, StopValue;
    assert (q + t)[4..] == t;
  }

  /** A group more or less in front is three bytes more or less, if any are counted. */
  lemma {:induction false} DecodedLenFront(u: Bytes, t: Bytes)
    requires t != [] && |t| % 4 == 0 && |u| == |t| + 4
    requires u[|u| - 1] == t[|t| - 1] && u[|u| - 2] == t[|t| - 2] && u[|u| - 3] == t[|t| - 3]
    ensures DecodedLen(u) == if DecodedLen(t) > 0 then DecodedLen(t) + 3 else 0
  {
    hide InvMap;
    var k := |t| / 4;
    assert |t| == 4 * k && |u| / 4 == k + 1 && 3 * (k + 1) == 3 * k + 3;
  }

  // ----- what decoding gives back

  lemma {:induction false} QuadDecodes(a: bv8, b: bv8, c: bv8)
    ensures var q := Quad(a, b, c);
            PlainGroup(q[0], q[1], q[2], q[3]) && Bytes3(q[0], q[1], q[2], q[3]) == Smear(a, b, c)
  {
    var w := Word3(a, b, c);
    HextetsSmall(w);
    WordBack(a, b, c);
    MapsAreInverse(Hextet0(w), 0);
    MapsAreInverse(Hextet1(w), 0);
    MapsAreInverse(Hextet2(w), 0);
    MapsAreInverse(Hextet3(w), 0);
    SmallIsPlain(Hextet0(w));
    SmallIsPlain(Hextet1(w));
    SmallIsPlain(Hextet2(w));
    SmallIsPlain(Hextet3(w));
    hide CharMap, InvMap, Word3, Word4, Hextet0, Hextet1, Hextet2, Hextet3, Byte0, Byte1, Byte2, Plain, Smear;
  }

  lemma {:induction false} SmallIsPlain(h: bv8)
    ensures h < 64 ==> Plain(CharMap(h))
    ensures !Plain(CharMap(64)) && InvMap(CharMap(64)) == 64
  {
  }

  /** The bits of the one or two bytes in a last group. */
  lemma {:induction false} LastBits(a: bv8, b: bv8)
    ensures (a & 0xFC) >> 2 < 64 && (a & 0x03) << 4 < 64
    ensures ((a & 0x03) << 4) | ((b & 0xF0) >> 4) < 64 && (b & 0x0F) << 2 < 64
    ensures (((a & 0xFC) >> 2) << 2) | (((a & 0x03) << 4) >> 4) == a
  {
  }

  lemma {:induction false} LastWord(a: bv8, b: bv8)
    ensures var p, q, r := (a & 0xFC) >> 2, ((a & 0x03) << 4) | ((b & 0xF0) >> 4), (b & 0x0F) << 2;
            var w := ((p as bv32) << 10) | ((q as bv32) << 4) | ((r as bv32) >> 2);
            Byte1(w) == a && Byte2(w) == b
  {
  }

  lemma {:induction false} PlainIsSmall(c: bv8)
    ensures Plain(c) <==> InvMap(c) < 64
  {
  }

  /** A group that ends in padding, as the decoder takes it. */
  lemma {:induction false} PaddedGroup(p: bv8, q: bv8, r: bv8)
    requires Plain(p) && Plain(q) && (Plain(r) || InvMap(r) == 64) && InvMap(PAD) == 64 && !Plain(PAD)
    ensures var bytes := if Plain(r) then 2 else 1;
            DecodedLen([p, q, r, PAD]) == bytes && Decode([p, q, r, PAD]) == Tail(p, q, r, PAD, bytes)
  {
    PlainIsSmall(q);
    PlainIsSmall(r);
    hide InvMap, Plain, Tail, Refusal;
    var t := [p, q, r, PAD];
    var bytes := if Plain(r) then 2 else 1;
    assert Scan(t) == ([], 64);
    assert DecodedLen(t) == bytes;
    if Tail(p, q, r, PAD, bytes).Done? {
      assert [] + Tail(p, q, r, PAD, bytes).value == Tail(p, q, r, PAD, bytes).value;
    }
  }

  lemma {:induction false} LastOneDecodes(a: bv8)
    ensures DecodedLen(LastOne(a)) == 1 && Decode(LastOne(a)) == Done([a])
  {
    var p, q := (a & 0xFC) >> 2, (a & 0x03) << 4;
    LastBits(a, 0);
    MapsAreInverse(p, 0);
    MapsAreInverse(q, 0);
    SmallIsPlain(p);
    SmallIsPlain(q);
    assert CharMap(64) == PAD;
    hide CharMap, InvMap, Plain, Decode, DecodedLen;
    PaddedGroup(CharMap(p), CharMap(q), PAD);
  }

  lemma {:induction false} LastTwoDecodes(a: bv8, b: bv8)
    ensures DecodedLen(LastTwo(a, b)) == 2 && Decode(LastTwo(a, b)) == Done([a, b])
  {
    var p, q, r := (a & 0xFC) >> 2, ((a & 0x03) << 4) | ((b & 0xF0) >> 4), (b & 0x0F) << 2;
    LastBits(a, b);
    LastWord(a, b);
    MapsAreInverse(p, 0);
    MapsAreInverse(q, 0);
    MapsAreInverse(r, 0);
    SmallIsPlain(p);
    SmallIsPlain(q);
    SmallIsPlain(r);
    assert CharMap(64) == PAD;
    hide CharMap, InvMap, Plain, Decode, DecodedLen, Byte1, Byte2;
    PaddedGroup(CharMap(p), CharMap(q), CharMap(r));
  }

  /** A text as the encoder takes it: in whole groups, signs spread. */
  function Smeared(b: Bytes): (r: Bytes)
    ensures |r| == |b|
  {
    if |b| >= 3 then Smear(b[0], b[1], b[2]) + Smeared(b[3..]) else b
  }

  /** No sign spreads over a byte it changes: in a whole group every byte before one of 128 or more is 255. */
  predicate Kept(b: Bytes) {
    |b| >= 3 ==>
      && (b[1] < 128 || b[0] == 255)
      && (b[2] < 128 || (b[0] == 255 && b[1] == 255))
      && Kept(b[3..])
  }

  lemma {:induction false} SmearedIffKept(b: Bytes)
    ensures Smeared(b) == b <==> Kept(b)
  {
    if |b| >= 3 {
      SmearedIffKept(b[3..]);
      var group, rest := Smear(b[0], b[1], b[2]), Smeared(b[3..]);
      assert b == [b[0], b[1], b[2]] + b[3..];
      assert (group + rest)[..3] == group && (group + rest)[3..] == rest;
      assert b[..3] == [b[0], b[1], b[2]];
    }
  }

  lemma {:induction false} SevenBitKept(b: Bytes)
    requires SevenBit(b)
    ensures Kept(b)
  {
    if |b| >= 3 {
      assert b[1] in b && b[2] in b;
      assert forall c :: c in b[3..] ==> c in b;
      SevenBitKept(b[3..]);
    }
  }

  /** The number of bytes and the bytes that decoding gives back, whatever the length. */
  lemma {:induction false} EncodedDecodes(b: Bytes)
    requires b != []
    ensures Encode(b) != [] && |Encode(b)| % 4 == 0 && DecodedLen(Encode(b)) == |b|
    ensures Decode(Encode(b)) == Done(Smeared(b))
  {
    EncodeLength(b);
    hide LastOne, LastTwo, Decode, DecodedLen, Bytes3, PlainGroup, Smear;
    if |b| == 1 {
      LastOneDecodes(b[0]);
      assert b == [b[0]];
    } else if |b| == 2 {
      LastTwoDecodes(b[0], b[1]);
      assert b == [b[0], b[1]];
    } else {
      QuadDecodes(b[0], b[1], b[2]);
      var quad, rest := Quad(b[0], b[1], b[2]), Encode(b[3..]);
      if |b| == 3 {
        OneQuad(quad);
        assert quad + rest == quad;
        assert Smear(b[0], b[1], b[2]) + b[3..] == Smear(b[0], b[1], b[2]);
      } else {
        EncodeLength(b[3..]);
        EncodedDecodes(b[3..]);
        DecodeFront(quad, rest);
        DecodedLenFront(quad + rest, rest);
      }
    }
  }

  lemma {:induction false} OneQuad(q: Bytes)
    requires |q| == 4 && PlainGroup(q[0], q[1], q[2], q[3])
    ensures DecodedLen(q) == 3 && Decode(q) == Done(Bytes3(q[0], q[1], q[2], q[3]))
  {
    PlainIsSmall(q[3]);
    hide InvMap, Plain, Bytes3, Refusal;
    var data := Bytes3(q[0], q[1], q[2], q[3]);
    assert Scan(q) == (data, InvMap(q[3]));
    assert data + [] == data;
  }

  /**
   Main result: an encoded text is decoded inside the block, to as many bytes as were encoded, and
   to the same ones if and only if no sign spreads.
   */
  lemma {:induction false} DecodeOfEncode(b: Bytes)
    requires b != []
    ensures Encode(b) != [] && |Encode(b)| % 4 == 0 && DecodedLen(Encode(b)) == |b|
    ensures Decoded(Encode(b)) == Done(Smeared(b))
    ensures Decoded(Encode(b)) == Done(b) <==> Kept(b)
  {
    hide Encode, Decode, DecodedLen, Kept, Smeared;
    EncodedDecodes(b);
    SmearedIffKept(b);
  }

  /** "A", then e with an acute accent in UTF-8: the signs wipe out everything but the last six bits. */
  lemma {:induction false} AccentIsLost()
    ensures Encode([0x41, 0xC3, 0xA9]) == [47, 47, 43, 112]
    ensures !Kept([0x41, 0xC3, 0xA9]) && Smeared([0x41, 0xC3, 0xA9]) == [255, 255, 0xA9]
  {
    var b: Bytes := [0x41, 0xC3, 0xA9];
    assert b[3..] == [] && Encode(b[3..]) == [] && Smeared(b[3..]) == [];
  }

  // ----- the block of the decoder

  /** A seven-bit text is looked up inside the table throughout. */
  lemma {:induction false} SevenBitLookups(t: Bytes)
    requires t != [] && |t| % 4 == 0 && SevenBit(t)
    ensures Scan(t).1 != OUTSIDE
  {
    assert t[0] in t && t[1] in t && t[2] in t && t[3] in t;
    if |t| > 4 && PlainGroup(t[0], t[1], t[2], t[3]) {
      assert forall c :: c in t[4..] ==> c in t;
      SevenBitLookups(t[4..]);
    }
    hide Plain, Bytes3;
  }

  /**
   Main result: for a seven-bit text the decoder stays inside its block if and only if the length
   is no multiple of four, or some bytes are counted, or the first group is not plain.
   */
  lemma {:induction false} StaysInsideIffRoomy(t: Bytes)
    requires t != [] && SevenBit(t)
    ensures Decoded(t) != Stray <==>
              |t| % 4 != 0 || DecodedLen(t) > 0 || !PlainGroup(t[0], t[1], t[2], t[3])
  {
    hide InvMap, PlainGroup, Scan, Plain, DecodedLen, Tail;
    if |t| % 4 == 0 {
      var n := |t|;
      SevenBitLookups(t);
      assert t[n - 4] in t && t[n - 3] in t && t[n - 2] in t && t[n - 1] in t;
      InTable(t[n - 3]);
      InTable(t[n - 2]);
      InTable(t[n - 1]);
      TailInTable(t[n - 4], t[n - 3], t[n - 2], t[n - 1], DecodedLen(t) % 3);
    }
  }

  lemma {:induction false} TailInTable(p: bv8, q: bv8, r: bv8, s: bv8, bytes: nat)
    requires p < 128 && q < 128 && r < 128 && s < 128
    ensures Tail(p, q, r, s, bytes) != Stray
  {
    InTable(p);
    InTable(q);
    InTable(r);
    InTable(s);
    hide InvMap, Plain;
  }

  lemma {:induction false} InTable(c: bv8)
    ensures InvMap(c) == OUTSIDE <==> c >= 128
  {
  }

  /** Four plain characters and four of padding: three bytes for a block of one. */
  lemma {:induction false} PaddedQuadStrays()
    ensures var t := [65, 65, 65, 65, PAD, PAD, PAD, PAD];
            DecodedLen(t) == 0 && Decode(t) == Done([0, 0, 0]) && Decoded(t) == Stray
  {
    var t: Bytes := [65, 65, 65, 65, PAD, PAD, PAD, PAD];
    assert t[4..] == [PAD, PAD, PAD, PAD];
    assert Scan(t[4..]) == ([], 64);
    assert Scan(t).0 == [0, 0, 0];
  }

  // ----- the decoder as written

  /** base64_decoded_len, with its search for padding from the end; None when it strays. */
  method ComputeDecodedLen(buffer: Bytes) returns (dlen: Option<nat>)
    requires |buffer| % 4 == 0 && buffer != []
    ensures dlen == if LenStrays(buffer) then None else Some(DecodedLen(buffer))
  {
    hide InvMap;
    var len, nudge := |buffer|, -1;
    var c := InvMap(buffer[len - 1]);
    if c == OUTSIDE { return None; }
    if c < 64 {
      nudge := 0;
    } else if c == 64 {
      c := InvMap(buffer[len - 2]);
      if c == OUTSIDE { return None; }
      if c < 64 {
        nudge := 1;
      } else if c == 64 {
        c := InvMap(buffer[len - 3]);
        if c == OUTSIDE { return None; }
        if c < 64 {
          nudge := 2;
        }
      }
    }
    dlen := Some(if nudge < 0 then 0 else 3 * (len / 4) - nudge);
  }

  /** One round of the loop: four values, up to the first that is not plain. */
  method Group(p: bv8, q: bv8, r: bv8, s: bv8) returns (plain: bool, hextet: bv8, word: bv32)
    ensures plain == PlainGroup(p, q, r, s)
    ensures hextet == StopValue(p, q, r, s)
    ensures plain ==> [Byte0(word), Byte1(word), Byte2(word)] == Bytes3(p, q, r, s)
  {
    hide InvMap, Byte0, Byte1, Byte2;
    plain, word := false, 0;
    hextet := InvMap(p);
    if hextet & 0xC0 != 0 { return; }
    word := (hextet as bv32) << 18;
    hextet := InvMap(q);
    if hextet & 0xC0 != 0 { return; }
    word := word | ((hextet as bv32) << 12);
    hextet := InvMap(r);
    if hextet & 0xC0 != 0 { return; }
    word := word | ((hextet as bv32) << 6);
    hextet := InvMap(s);
    if hextet & 0xC0 != 0 { return; }
    word := word | (hextet as bv32);
    plain := true;
  }

  method Store3(dbuf: array<bv8>, d: nat, word: bv32)
    requires d + 3 <= dbuf.Length
    modifies dbuf
    ensures dbuf[..d + 3] == old(dbuf[..d]) + [Byte0(word), Byte1(word), Byte2(word)]
  {
    hide Byte0, Byte1, Byte2;
    dbuf[d] := Byte0(word);
    dbuf[d + 1] := Byte1(word);
    dbuf[d + 2] := Byte2(word);
  }

  /** The last group, checked once more; `end` is where the end mark goes. */
  method Redo(p: bv8, q: bv8, r: bv8, s: bv8, bytes: nat, dbuf: array<bv8>, d: nat) returns (end: Outcome<nat>)
    requires bytes < 3 && d + bytes < dbuf.Length
    modifies dbuf
    ensures match Tail(p, q, r, s, bytes)
            case Done(tail) => end == Done(d + bytes) && dbuf[..d + bytes] == old(dbuf[..d]) + tail
            case Failed => end == Failed
            case Stray => end == Stray
  {
    hide InvMap, Byte1, Byte2, Plain;
    if bytes == 1 {
      end := RedoOne(p, q, r, s, dbuf, d);
    } else if bytes == 2 {
      end := RedoTwo(p, q, r, s, dbuf, d);
    } else {
      end := Done(d);
    }
  }

  method RedoOne(p: bv8, q: bv8, r: bv8, s: bv8, dbuf: array<bv8>, d: nat) returns (end: Outcome<nat>)
    requires d + 1 < dbuf.Length
    modifies dbuf
    ensures match Tail(p, q, r, s, 1)
            case Done(tail) => end == Done(d + 1) && dbuf[..d + 1] == old(dbuf[..d]) + tail
            case Failed => end == Failed
            case Stray => end == Stray
  {
    hide InvMap, Byte1, Byte2;
    var hextet := InvMap(p);
    if hextet & 0xC0 != 0 { return Refusal(hextet); }
    var word := hextet << 2;
    hextet := InvMap(q);
    if hextet & 0xC0 != 0 { return Refusal(hextet); }
    word := word | (hextet >> 4);
    dbuf[d] := word;
    hextet := InvMap(r);
    if hextet != 64 { return Refusal(hextet); }
    hextet := InvMap(s);
    if hextet != 64 { return Refusal(hextet); }
    end := Done(d + 1);
  }

  method Store2(dbuf: array<bv8>, d: nat, a: bv8, b: bv8)
    requires d + 2 <= dbuf.Length
    modifies dbuf
    ensures dbuf[..d + 2] == old(dbuf[..d]) + [a, b]
  {
    dbuf[d] := a;
    dbuf[d + 1] := b;
  }

  method RedoTwo(p: bv8, q: bv8, r: bv8, s: bv8, dbuf: array<bv8>, d: nat) returns (end: Outcome<nat>)
    requires d + 2 < dbuf.Length
    modifies dbuf
    ensures match Tail(p, q, r, s, 2)
            case Done(tail) => end == Done(d + 2) && dbuf[..d + 2] == old(dbuf[..d]) + tail
            case Failed => end == Failed
            case Stray => end == Stray
  {
    hide InvMap, Byte1, Byte2;
    var hextet := InvMap(p);
    if hextet & 0xC0 != 0 { return Refusal(hextet); }
    var word := (hextet as bv32) << 10;
    hextet := InvMap(q);
    if hextet & 0xC0 != 0 { return Refusal(hextet); }
    word := word | ((hextet as bv32) << 4);
    hextet := InvMap(r);
    if hextet & 0xC0 != 0 { return Refusal(hextet); }
    word := word | ((hextet as bv32) >> 2);
    Store2(dbuf, d, Byte1(word), Byte2(word));
    hextet := InvMap(s);
    if hextet != 64 { return Refusal(hextet); }
    end := Done(d + 2);
  }

  /** At a plain group there is room for three bytes, if any bytes were counted. */
  lemma {:induction false} RoomFor(t: Bytes, i: nat)
    requires t != [] && |t| % 4 == 0 && i % 4 == 0 && i < |t| && DecodedLen(t) > 0
    requires PlainGroup(t[i], t[i + 1], t[i + 2], t[i + 3])
    ensures i / 4 * 3 + 3 <= DecodedLen(t)
  {
    PlainIsSmall(t[i + 3]);
    hide InvMap, Plain;
    var k, m := i / 4, |t| / 4;
    assert i == 4 * k && |t| == 4 * m && (k + 1 == m || k + 2 <= m);
  }

  /** And at the end for the bytes of the last group. */
  lemma {:induction false} RoomAtEnd(t: Bytes, i: nat)
    requires t != [] && |t| % 4 == 0 && i % 4 == 0 && i <= |t|
    requires DecodedLen(t) > 0 || i == 0
    requires i == |t| ==> PlainGroup(t[i - 4], t[i - 3], t[i - 2], t[i - 1])
    ensures i / 4 * 3 + DecodedLen(t) % 3 <= DecodedLen(t)
  {
    PlainIsSmall(t[|t| - 1]);
    hide InvMap, Plain;
    var k, m := i / 4, |t| / 4;
    assert i == 4 * k && |t| == 4 * m && (k == m || k + 1 <= m);
  }

  /** The loop over groups of four, as far as its stores stay inside the block. */
  method DecodeGroups(buffer: Bytes, dbuf: array<bv8>) returns (inside: bool, d: nat, hextet: bv8)
    requires buffer != [] && |buffer| % 4 == 0 && dbuf.Length == DecodedLen(buffer) + 1
    modifies dbuf
    ensures inside <==> DecodedLen(buffer) > 0 || !PlainGroup(buffer[0], buffer[1], buffer[2], buffer[3])
    ensures inside ==> d + DecodedLen(buffer) % 3 < dbuf.Length && Scan(buffer) == (dbuf[..d], hextet)
  {
    hide InvMap, Plain, PlainGroup, Bytes3, Byte0, Byte1, Byte2, StopValue, DecodedLen, Scan;
    var len := |buffer|;
    var i, plain, word: bv32 := 0, true, 0;
    d, hextet := 0, 0;
    assert buffer[0..] == buffer && [] + Scan(buffer).0 == Scan(buffer).0;
    while i < len - 3 && plain
      invariant i <= len && i % 4 == 0 && d == i / 4 * 3 && d < dbuf.Length
      invariant i > 0 ==> DecodedLen(buffer) > 0
      invariant i == len ==> PlainGroup(buffer[i - 4], buffer[i - 3], buffer[i - 2], buffer[i - 1])
      invariant !plain ==> i < len && !PlainGroup(buffer[i], buffer[i + 1], buffer[i + 2], buffer[i + 3])
      invariant if plain && i < len then Scan(buffer) == (dbuf[..d] + Scan(buffer[i..]).0, Scan(buffer[i..]).1)
                else Scan(buffer) == (dbuf[..d], hextet)
      decreases len - i, plain
    {
      plain, hextet, word := Group(buffer[i], buffer[i + 1], buffer[i + 2], buffer[i + 3]);
      ScanHere(buffer, i, dbuf[..d]);
      if plain {
        if DecodedLen(buffer) > 0 {
          RoomFor(buffer, i);
        }
        if d + 3 > dbuf.Length {
          return false, d, hextet;
        }
        Store3(dbuf, d, word);
        d := d + 3;
        i := i + 4;
      }
    }
    RoomAtEnd(buffer, i);
    inside := true;
  }

  /** base64_decode: the block it allocates holds what is decoded and the end mark. */
  method DecodeBuffer(buffer: Bytes) returns (r: Outcome<Bytes>, dbuf: array?<bv8>)
    requires buffer != []
    ensures r == Decoded(buffer)
    ensures r.Done? ==>
              && dbuf != null && dbuf.Length == DecodedLen(buffer) + 1 && |r.value| < dbuf.Length
              && dbuf[..|r.value|] == r.value && dbuf[|r.value|] == 0
  {
    hide InvMap, PlainGroup, Scan, Tail, DecodedLen, LenStrays;
    var len := |buffer|;
    dbuf := null;
    if len % 4 != 0 {
      return Failed, null;
    }
    var dlen := ComputeDecodedLen(buffer);
    if dlen.None? {
      return Stray, null;
    }
    var block := new bv8[dlen.value + 1];
    var inside, d, hextet := DecodeGroups(buffer, block);
    if !inside {
      return Stray, null;
    }
    if hextet > 64 {
      return Refusal(hextet), null;
    }
    var end := Redo(buffer[len - 4], buffer[len - 3], buffer[len - 2], buffer[len - 1], dlen.value % 3, block, d);
    if end.Done? {
      block[end.value] := 0;
      return Done(block[..end.value]), block;
    }
    r := if end.Stray? then Stray else Failed;
  }

  lemma {:induction false} ScanHere(t: Bytes, i: nat, d: Bytes)
    requires |t| % 4 == 0 && i % 4 == 0 && i < |t|
    ensures var (p, q, r, s) := (t[i], t[i + 1], t[i + 2], t[i + 3]);
            var (data, stop) := Scan(t[i..]);
            if PlainGroup(p, q, r, s) then
              if i + 4 == |t| then d + data == d + Bytes3(p, q, r, s) && stop == StopValue(p, q, r, s)
              else d + data == d + Bytes3(p, q, r, s) + Scan(t[i + 4..]).0 && stop == Scan(t[i + 4..]).1
            else d + data == d && stop == StopValue(p, q, r, s)
  {
    hide InvMap, Bytes3;
    assert t[i..][4..] == t[i + 4..];
  }
}
