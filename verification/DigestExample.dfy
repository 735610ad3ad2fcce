/** The texts of one small exchange, written out: what is hashed at each stage, and the reply. */
module DigestExample {
  import opened Base64
  import opened DigestText
  import opened DigestReply
  import opened DigestMd5

  /** "0fa93e": the high half of a byte first, in lower case. */
  lemma {:induction false} HexWrittenOut()
    ensures Hex([0x0F, 0xA9, 0x3E]) == [48, 102, 97, 57, 51, 101]
  {
    assert Hex([]) == [];
    assert Hex([0x3E]) == [51, 101];
    assert Hex([0xA9, 0x3E]) == [97, 57, 51, 101];
  }

  /** "AUTHENTICATE:d", and for another quality of protection ":00000000000000000000000000000000" behind it. */
  lemma {:induction false} A2WrittenOut()
    ensures A2([100], [97, 117, 116, 104]) == [65, 85, 84, 72, 69, 78, 84, 73, 67, 65, 84, 69, 58, 100]
    ensures A2([100], [97, 117, 116, 104, 45, 105, 110, 116])
         == [65, 85, 84, 72, 69, 78, 84, 73, 67, 65, 84, 69, 58, 100]
            + [58, 48, 48, 48, 48, 48, 48, 48, 48, 48, 48, 48, 48, 48, 48, 48, 48, 48, 48, 48, 48, 48, 48, 48, 48, 48, 48, 48, 48, 48, 48, 48, 48]
  {
  }

  /** A challenge read as realm="r", nonce="n", charset=utf-8. */
  const CHALLENGE: Table := map[REALM := [114], NONCE := [110], CHARSET := [117, 116, 102, 45, 56]]

  lemma {:induction false} Read()
    ensures RealmOf(CHALLENGE, [100]) == [114] && Get(CHALLENGE, NONCE) == [110] && Get(CHALLENGE, CHARSET) == [117, 116, 102, 45, 56]
    ensures RealmOf(map[], [100]) == [100]
  {
    Places();
    hide Place;
  }

  /** The response to it, and what is hashed for it. */
  lemma {:induction false} ResponseHashed()
    ensures ResponseTo(CHALLENGE, [117], [100], [112])
         == Hex(H(Hex(H(H([117, 58, 114, 58, 112]) + [58, 110, 58, 48, 48, 68, 69, 65, 68, 66, 69, 69, 70, 48, 48]))
                  + [58, 110, 58, 48, 48, 48, 48, 48, 48, 48, 49, 58, 48, 48, 68, 69, 65, 68, 66, 69, 69, 70, 48, 48, 58, 97, 117, 116, 104, 58]
                  + Hex(H([65, 85, 84, 72, 69, 78, 84, 73, 67, 65, 84, 69, 58, 120, 109, 112, 112, 47, 100]))))
  {
    hide A1, A2, Response, H, Hex, RealmOf, Get;
    Read();
    A1Hashed();
    A2Hashed();
    Between(H([117, 58, 114, 58, 112]) + [58, 110, 58, 48, 48, 68, 69, 65, 68, 66, 69, 69, 70, 48, 48], [65, 85, 84, 72, 69, 78, 84, 73, 67, 65, 84, 69, 58, 120, 109, 112, 112, 47, 100]);
  }

  lemma {:induction false} Credentials()
    ensures [117] + COLON + [114] + COLON + [112] == [117, 58, 114, 58, 112]
  {
  }

  lemma {:induction false} Nonces()
    ensures COLON + [110] + COLON + CNONCE_VALUE == [58, 110, 58, 48, 48, 68, 69, 65, 68, 66, 69, 69, 70, 48, 48]
  {
  }

  lemma {:induction false} Grouped(x: Bytes, a: Bytes, b: Bytes, c: Bytes, d: Bytes)
    ensures x + a + b + c + d == x + (a + b + c + d)
  {
  }

  lemma {:induction false} A1Hashed()
    ensures A1([117], [114], [112], [110], CNONCE_VALUE) == H([117, 58, 114, 58, 112]) + [58, 110, 58, 48, 48, 68, 69, 65, 68, 66, 69, 69, 70, 48, 48]
  {
    hide H, COLON, CNONCE_VALUE;
    Credentials();
    Nonces();
    Grouped(H([117, 58, 114, 58, 112]), COLON, [110], COLON, CNONCE_VALUE);
  }

  lemma {:induction false} A2Hashed()
    ensures A2(XMPP + [100], AUTH) == [65, 85, 84, 72, 69, 78, 84, 73, 67, 65, 84, 69, 58, 120, 109, 112, 112, 47, 100]
  {
  }

  lemma {:induction false} Middle()
    ensures COLON + [110] + COLON + NC_VALUE + COLON + CNONCE_VALUE + COLON + AUTH + COLON == [58, 110, 58, 48, 48, 48, 48, 48, 48, 48, 49, 58, 48, 48, 68, 69, 65, 68, 66, 69, 69, 70, 48, 48, 58, 97, 117, 116, 104, 58]
  {
    Nonces();
    assert COLON + [110] + COLON + NC_VALUE == [58, 110, 58, 48, 48, 48, 48, 48, 48, 48, 49];
    assert [58, 110, 58, 48, 48, 48, 48, 48, 48, 48, 49] + COLON + CNONCE_VALUE == [58, 110, 58, 48, 48, 48, 48, 48, 48, 48, 49, 58, 48, 48, 68, 69, 65, 68, 66, 69, 69, 70, 48, 48];
    assert [58, 110, 58, 48, 48, 48, 48, 48, 48, 48, 49, 58, 48, 48, 68, 69, 65, 68, 66, 69, 69, 70, 48, 48] + COLON + AUTH + COLON == [58, 110, 58, 48, 48, 48, 48, 48, 48, 48, 49, 58, 48, 48, 68, 69, 65, 68, 66, 69, 69, 70, 48, 48, 58, 97, 117, 116, 104, 58];
  }

  lemma {:induction false} Grouped9(x: Bytes, a: Bytes, b: Bytes, c: Bytes, d: Bytes, e: Bytes, y: Bytes)
    ensures x + a + b + a + c + a + d + a + e + a + y == x + (a + b + a + c + a + d + a + e + a) + y
  {
  }

  lemma {:induction false} Between(a1: Bytes, a2: Bytes)
    ensures Response(a1, a2, [110], NC_VALUE, CNONCE_VALUE, AUTH)
         == Hex(H(Hex(H(a1)) + [58, 110, 58, 48, 48, 48, 48, 48, 48, 48, 49, 58, 48, 48, 68, 69, 65, 68, 66, 69, 69, 70, 48, 48, 58, 97, 117, 116, 104, 58] + Hex(H(a2))))
  {
    hide H, Hex, COLON, NC_VALUE, CNONCE_VALUE, AUTH;
    Middle();
    Grouped9(Hex(H(a1)), COLON, [110], NC_VALUE, CNONCE_VALUE, AUTH, Hex(H(a2)));
  }

  lemma {:induction false} Items0()
    ensures Item(Field(USERNAME, [117], true)) == [117, 115, 101, 114, 110, 97, 109, 101, 61, 34, 117, 34]
    ensures Item(Field(REALM, [114], true)) == [114, 101, 97, 108, 109, 61, 34, 114, 34]
    ensures Item(Field(NONCE, [110], true)) == [110, 111, 110, 99, 101, 61, 34, 110, 34]
  {
  }

  lemma {:induction false} Items1()
    ensures Item(Field(CNONCE, CNONCE_VALUE, true)) == [99, 110, 111, 110, 99, 101, 61, 34, 48, 48, 68, 69, 65, 68, 66, 69, 69, 70, 48, 48, 34]
  {
  }

  lemma {:induction false} Items2()
    ensures Item(Field(NC, NC_VALUE, false)) == [110, 99, 61, 48, 48, 48, 48, 48, 48, 48, 49]
    ensures Item(Field(QOP, AUTH, false)) == [113, 111, 112, 61, 97, 117, 116, 104]
  {
  }

  lemma {:induction false} Items3()
    ensures Item(Field(DIGEST_URI, XMPP + [100], true)) == [100, 105, 103, 101, 115, 116, 45, 117, 114, 105, 61, 34, 120, 109, 112, 112, 47, 100, 34]
  {
  }

  lemma {:induction false} Items4(x: Bytes)
    ensures Item(Field(RESPONSE, x, false)) == [114, 101, 115, 112, 111, 110, 115, 101, 61] + x
    ensures Item(Field(CHARSET, [117, 116, 102, 45, 56], false)) == [99, 104, 97, 114, 115, 101, 116, 61, 117, 116, 102, 45, 56]
  {
  }

  /** Parts with a comma after each but the last. */
  function WithCommas(parts: seq<Bytes>): Bytes {
    if parts == [] then [] else if |parts| == 1 then parts[0] else parts[0] + [44] + WithCommas(parts[1..])
  }

  lemma {:induction false} LineOfParts(fields: seq<Field>, parts: seq<Bytes>)
    requires |fields| == |parts| && forall i :: 0 <= i < |fields| ==> Item(fields[i]) == parts[i]
    ensures Line(fields) == WithCommas(parts)
  {
    hide Item;
    if |fields| > 1 {
      LineOfParts(fields[1..], parts[1..]);
    }
  }

  /**
   Main result: the reply of user u at d with password p, in the order of the source:
   username="u",realm="r",nonce="n",cnonce="00DEADBEEF00",nc=00000001,qop=auth,digest-uri="xmpp/d",
   response=...,charset=utf-8, in one line.
   */
  lemma {:induction false} ReplyWrittenOut()
    ensures var x := ResponseTo(CHALLENGE, [117], [100], [112]);
            AddKeys(Fields(CHALLENGE, [117], [100], [112]))
            == WithCommas([
                 [117, 115, 101, 114, 110, 97, 109, 101, 61, 34, 117, 34],
                 [114, 101, 97, 108, 109, 61, 34, 114, 34],
                 [110, 111, 110, 99, 101, 61, 34, 110, 34],
                 [99, 110, 111, 110, 99, 101, 61, 34, 48, 48, 68, 69, 65, 68, 66, 69, 69, 70, 48, 48, 34],
                 [110, 99, 61, 48, 48, 48, 48, 48, 48, 48, 49],
                 [113, 111, 112, 61, 97, 117, 116, 104],
                 [100, 105, 103, 101, 115, 116, 45, 117, 114, 105, 61, 34, 120, 109, 112, 112, 47, 100, 34],
                 [114, 101, 115, 112, 111, 110, 115, 101, 61] + x,
                 [99, 104, 97, 114, 115, 101, 116, 61, 117, 116, 102, 45, 56]])
  {
    hide ResponseTo, Item, AddKeys, RealmOf, Get, WithCommas;
    var x := ResponseTo(CHALLENGE, [117], [100], [112]);
    var fields := Fields(CHALLENGE, [117], [100], [112]);
    Read();
    Items0();
    Items1();
    Items2();
    Items3();
    Items4(x);
    AddKeysIsLine(fields);
    LineOfParts(fields, [
                 [117, 115, 101, 114, 110, 97, 109, 101, 61, 34, 117, 34],
                 [114, 101, 97, 108, 109, 61, 34, 114, 34],
                 [110, 111, 110, 99, 101, 61, 34, 110, 34],
                 [99, 110, 111, 110, 99, 101, 61, 34, 48, 48, 68, 69, 65, 68, 66, 69, 69, 70, 48, 48, 34],
                 [110, 99, 61, 48, 48, 48, 48, 48, 48, 48, 49],
                 [113, 111, 112, 61, 97, 117, 116, 104],
                 [100, 105, 103, 101, 115, 116, 45, 117, 114, 105, 61, 34, 120, 109, 112, 112, 47, 100, 34],
                 [114, 101, 115, 112, 111, 110, 115, 101, 61] + x,
                 [99, 104, 97, 114, 115, 101, 116, 61, 117, 116, 102, 45, 56]]);
  }
}
