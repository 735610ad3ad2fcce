/**
 sasl_digest_md5 of src/xmpp-sasl.c: the response is that of section 2.1.2.1 of RFC 2831, and
 the server reads every field of the reply back.
 */
module DigestMd5 {
  import opened Wrappers
  import opened Base64
  import opened DigestText
  import opened DigestReply
  import opened SignedChar
  import HashKey
  import Md5Digest

  // ----- the texts that the source writes out

  const COLON: Bytes := [58]
  const REALM: Bytes := [114, 101, 97, 108, 109]
  const USERNAME: Bytes := [117, 115, 101, 114, 110, 97, 109, 101]
  const NONCE: Bytes := [110, 111, 110, 99, 101]
  const CNONCE: Bytes := [99, 110, 111, 110, 99, 101]
  const NC: Bytes := [110, 99]
  const QOP: Bytes := [113, 111, 112]
  const DIGEST_URI: Bytes := [100, 105, 103, 101, 115, 116, 45, 117, 114, 105]
  const RESPONSE: Bytes := [114, 101, 115, 112, 111, 110, 115, 101]
  const CHARSET: Bytes := [99, 104, 97, 114, 115, 101, 116]
  const AUTH: Bytes := [97, 117, 116, 104]
  const CNONCE_VALUE: Bytes := [48, 48, 68, 69, 65, 68, 66, 69, 69, 70, 48, 48]
  const NC_VALUE: Bytes := [48, 48, 48, 48, 48, 48, 48, 49]
  const XMPP: Bytes := [120, 109, 112, 112, 47]
  const AUTHENTICATE: Bytes := [65, 85, 84, 72, 69, 78, 84, 73, 67, 65, 84, 69, 58]

  const EIGHT_ZEROS: Bytes := [48, 48, 48, 48, 48, 48, 48, 48]
  const ZEROS: Bytes := COLON + EIGHT_ZEROS + EIGHT_ZEROS + EIGHT_ZEROS + EIGHT_ZEROS

  // ----- section 2.1.2.1 of RFC 2831

  function H(m: Bytes): Bytes { Md5Digest.Digest(m) }

  function HexDigit(n: bv8): bv8 { if n < 10 then 48 + n else 87 + n }

  /** Thirty-two lower case hexadecimal digits. */
  function Hex(b: Bytes): Bytes {
    if b == [] then [] else [HexDigit((b[0] >> 4) & 0x0F), HexDigit(b[0] & 0x0F)] + Hex(b[1..])
  }

  function A1(node: Bytes, realm: Bytes, password: Bytes, nonce: Bytes, cnonce: Bytes): Bytes {
    H(node + COLON + realm + COLON + password) + COLON + nonce + COLON + cnonce
  }

  /** With a quality of protection other than "auth", a colon and thirty-two zeros follow. */
  function A2(uri: Bytes, qop: Bytes): Bytes {
    AUTHENTICATE + uri + (if qop != AUTH then ZEROS else [])
  }

  function Response(a1: Bytes, a2: Bytes, nonce: Bytes, nc: Bytes, cnonce: Bytes, qop: Bytes): Bytes {
    Hex(H(Hex(H(a1)) + COLON + nonce + COLON + nc + COLON + cnonce + COLON + qop + COLON + Hex(H(a2))))
  }

  // ----- hashing as in the source, piece by piece

  predicate Fits(b: Bytes) { |b| < Md5Digest.BASE }

  /** MD5(A1): the binary digest of the credentials comes first. */
  method HashA1(node: Bytes, realm: Bytes, password: Bytes, nonce: Bytes, cnonce: Bytes) returns (digest: Bytes)
    requires Fits(node) && Fits(realm) && Fits(password) && Fits(nonce) && Fits(cnonce)
    ensures digest == H(A1(node, realm, password, nonce, cnonce))
  {
    hide Md5Digest.Digest;
    digest := HashFive(node, COLON, realm, COLON, password);
    assert digest == H(node + COLON + realm + COLON + password);
    DigestFits(node + COLON + realm + COLON + password);
    digest := HashFive(digest, COLON, nonce, COLON, cnonce);
  }

  lemma {:induction false} DigestFits(m: Bytes)
    ensures |H(m)| == 16
  {
    hide Md5Digest.Chain, Md5Digest.Pad, Md5Digest.Put;
  }

  method HashFive(a: Bytes, b: Bytes, c: Bytes, d: Bytes, e: Bytes) returns (digest: Bytes)
    requires Fits(a) && Fits(b) && Fits(c) && Fits(d) && Fits(e)
    ensures digest == H(a + b + c + d + e)
  {
    hide Md5Digest.Digest, Md5Digest.Chain, Md5Digest.Counts, Md5Digest.Whole, Md5Digest.Rest, Md5Digest.Zeros;
    var md5 := new Md5Digest.Context();
    md5.Init();
    md5.Update(a);
    assert [] + a == a;
    md5.Update(b);
    md5.Update(c);
    md5.Update(d);
    md5.Update(e);
    digest := md5.Final();
  }

  /** MD5(A2) */
  method HashA2(uri: Bytes, qop: Bytes) returns (digest: Bytes)
    requires Fits(uri)
    ensures digest == H(A2(uri, qop))
  {
    hide Md5Digest.Digest, Md5Digest.Chain, Md5Digest.Counts, Md5Digest.Whole, Md5Digest.Rest, Md5Digest.Zeros;
    var md5 := new Md5Digest.Context();
    md5.Init();
    md5.Update(AUTHENTICATE);
    assert [] + AUTHENTICATE == AUTHENTICATE;
    md5.Update(uri);
    if qop != AUTH {
      md5.Update(ZEROS);
    } else {
      assert AUTHENTICATE + uri + [] == AUTHENTICATE + uri;
    }
    digest := md5.Final();
  }

  /** _digest_to_hex */
  method DigestToHex(digest: Bytes) returns (hex: Bytes)
    ensures hex == Hex(digest)
  {
    hide HexDigit;
    hex := [];
    var i := 0;
    assert digest[0..] == digest;
    while i < |digest|
      invariant i <= |digest| && hex + Hex(digest[i..]) == Hex(digest)
    {
      assert digest[i..][1..] == digest[i + 1..];
      hex := hex + [HexDigit((digest[i] >> 4) & 0x0F), HexDigit(digest[i] & 0x0F)];
      i := i + 1;
    }
    assert digest[i..] == [];
  }

  lemma {:induction false} HexLength(b: Bytes)
    ensures |Hex(b)| == 2 * |b|
  {
    if b != [] {
      HexLength(b[1..]);
    }
  }

  /** The keyed digest over eleven pieces. */
  method HashResponse(a1: Bytes, nonce: Bytes, nc: Bytes, cnonce: Bytes, qop: Bytes, a2: Bytes) returns (digest: Bytes)
    requires Fits(a1) && Fits(nonce) && Fits(nc) && Fits(cnonce) && Fits(qop) && Fits(a2)
    ensures digest == H(a1 + COLON + nonce + COLON + nc + COLON + cnonce + COLON + qop + COLON + a2)
  {
    hide Md5Digest.Digest, Md5Digest.Chain, Md5Digest.Counts, Md5Digest.Whole, Md5Digest.Rest, Md5Digest.Zeros;
    var md5 := new Md5Digest.Context();
    md5.Init();
    md5.Update(a1);
    assert [] + a1 == a1;
    md5.Update(COLON);
    md5.Update(nonce);
    md5.Update(COLON);
    md5.Update(nc);
    md5.Update(COLON);
    md5.Update(cnonce);
    md5.Update(COLON);
    md5.Update(qop);
    md5.Update(COLON);
    md5.Update(a2);
    digest := md5.Final();
  }

  // ----- the whole exchange

  /** hash_get, with the empty string that _add_key takes for a missing value. */
  function Get(table: Table, key: Bytes): Bytes {
    if key in table then table[key] else []
  }

  /** The realm of the server, or the domain if it sent none. */
  function RealmOf(table: Table, domain: Bytes): Bytes {
    if Get(table, REALM) == [] then domain else Get(table, REALM)
  }

  function ResponseTo(table: Table, node: Bytes, domain: Bytes, password: Bytes): Bytes {
    var nonce := Get(table, NONCE);
    Response(A1(node, RealmOf(table, domain), password, nonce, CNONCE_VALUE), A2(XMPP + domain, AUTH),
             nonce, NC_VALUE, CNONCE_VALUE, AUTH)
  }

  /** The reply to a challenge, field by field. */
  function Fields(table: Table, node: Bytes, domain: Bytes, password: Bytes): seq<Field> {
    [Field(USERNAME, node, true),
     Field(REALM, RealmOf(table, domain), true),
     Field(NONCE, Get(table, NONCE), true),
     Field(CNONCE, CNONCE_VALUE, true),
     Field(NC, NC_VALUE, false),
     Field(QOP, AUTH, false),
     Field(DIGEST_URI, XMPP + domain, true),
     Field(RESPONSE, ResponseTo(table, node, domain, password), false),
     Field(CHARSET, Get(table, CHARSET), false)]
  }

  lemma {:induction false} AddKeysOn(fields: seq<Field>, f: Field)
    ensures AddKeys(fields + [f]) == AddKey(AddKeys(fields), f)
  {
    assert (fields + [f])[..|fields|] == fields;
  }

  /** The response, from the fields in the table. */
  method ComputeResponse(table: Table, node: Bytes, realm: Bytes, password: Bytes) returns (response: Bytes)
    requires NONCE in table && CNONCE in table && NC in table && QOP in table && DIGEST_URI in table
    requires forall key :: key in table ==> Fits(table[key])
    requires Fits(node) && Fits(realm) && Fits(password)
    ensures response == Response(A1(node, realm, password, table[NONCE], table[CNONCE]), A2(table[DIGEST_URI], table[QOP]),
                                 table[NONCE], table[NC], table[CNONCE], table[QOP])
  {
    hide H, A1, A2, Hex;
    var ha1 := HashA1(node, realm, password, table[NONCE], table[CNONCE]);
    var ha2 := HashA2(table[DIGEST_URI], table[QOP]);
    var hex1 := DigestToHex(ha1);
    var hex2 := DigestToHex(ha2);
    DigestFits(A1(node, realm, password, table[NONCE], table[CNONCE]));
    DigestFits(A2(table[DIGEST_URI], table[QOP]));
    HexLength(ha1);
    HexLength(ha2);
    var digest := HashResponse(hex1, table[NONCE], table[NC], table[CNONCE], table[QOP], hex2);
    response := DigestToHex(digest);
  }

  /** The place of a key in the reply. */
  function Place(key: Bytes): nat {
    if key == USERNAME then 0 else if key == REALM then 1 else if key == NONCE then 2
    else if key == CNONCE then 3 else if key == NC then 4 else if key == QOP then 5
    else if key == DIGEST_URI then 6 else if key == RESPONSE then 7 else 8
  }

  lemma {:induction false} Places()
    ensures Place(USERNAME) == 0 && Place(REALM) == 1 && Place(NONCE) == 2 && Place(CNONCE) == 3 && Place(NC) == 4
    ensures Place(QOP) == 5 && Place(DIGEST_URI) == 6 && Place(RESPONSE) == 7 && Place(CHARSET) == 8
  {
    assert REALM[0] != NONCE[0] && USERNAME[0] != RESPONSE[0];
  }

  lemma {:induction false} KeysDiffer(table: Table, node: Bytes, domain: Bytes, password: Bytes)
    ensures DistinctKeys(Fields(table, node, domain, password))
  {
    Places();
    hide ResponseTo, RealmOf, Get, Place;
    var fields := Fields(table, node, domain, password);
    assert forall i :: 0 <= i < |fields| ==> Place(fields[i].key) == i;
  }

  /** The response fields that the source adds to the table of the challenge. */
  function Filled(table: Table, node: Bytes, domain: Bytes): (r: Table)
  {
    table[REALM := RealmOf(table, domain)][USERNAME := node][CNONCE := CNONCE_VALUE][NC := NC_VALUE]
         [QOP := AUTH][DIGEST_URI := XMPP + domain]
  }

  lemma {:induction false} FilledHolds(table: Table, node: Bytes, domain: Bytes)
    ensures var t := Filled(table, node, domain);
            && REALM in t && t[REALM] == RealmOf(table, domain) && USERNAME in t && t[USERNAME] == node
            && CNONCE in t && t[CNONCE] == CNONCE_VALUE && NC in t && t[NC] == NC_VALUE
            && QOP in t && t[QOP] == AUTH && DIGEST_URI in t && t[DIGEST_URI] == XMPP + domain
            && Get(t, NONCE) == Get(table, NONCE) && (NONCE in table ==> NONCE in t)
            && Get(t, CHARSET) == Get(table, CHARSET)
            && RESPONSE != USERNAME && RESPONSE != REALM && RESPONSE != NONCE && RESPONSE != CNONCE && RESPONSE != NC
            && RESPONSE != QOP && RESPONSE != DIGEST_URI && RESPONSE != CHARSET
  {
    Places();
    hide Place, RealmOf;
  }

  /** The key and the quoting of each call of _add_key. */
  const ORDER: seq<(Bytes, bool)> :=
    [(USERNAME, true), (REALM, true), (NONCE, true), (CNONCE, true), (NC, false), (QOP, false),
     (DIGEST_URI, true), (RESPONSE, false), (CHARSET, false)]

  function FieldAt(table: Table, i: nat): Field
    requires i < |ORDER|
  {
    Field(ORDER[i].0, Get(table, ORDER[i].0), ORDER[i].1)
  }

  function FieldsTo(table: Table, n: nat): seq<Field>
    requires n <= |ORDER|
  {
    seq(n, i requires 0 <= i < n => FieldAt(table, i))
  }

  /** The calls of _add_key, in their order. */
  method Assemble(table: Table) returns (buf: Bytes)
    ensures buf == AddKeys(FieldsTo(table, |ORDER|))
  {
    hide FieldAt, AddKey;
    buf := [];
    var i := 0;
    while i < |ORDER|
      invariant i <= |ORDER| && buf == AddKeys(FieldsTo(table, i))
    {
      AddKeysOn(FieldsTo(table, i), FieldAt(table, i));
      assert FieldsTo(table, i + 1) == FieldsTo(table, i) + [FieldAt(table, i)];
      buf := AddKey(buf, FieldAt(table, i));
      i := i + 1;
    }
  }

  lemma {:induction false} OrderIsFields(table: Table, node: Bytes, domain: Bytes, password: Bytes)
    ensures FieldsTo(Filled(table, node, domain)[RESPONSE := ResponseTo(table, node, domain, password)], |ORDER|)
         == Fields(table, node, domain, password)
  {
    FilledHolds(table, node, domain);
    hide Filled, ResponseTo, RealmOf;
    var t := Filled(table, node, domain)[RESPONSE := ResponseTo(table, node, domain, password)];
    var fields := Fields(table, node, domain, password);
    assert FieldAt(t, 0) == fields[0] && FieldAt(t, 1) == fields[1] && FieldAt(t, 2) == fields[2];
    assert FieldAt(t, 3) == fields[3] && FieldAt(t, 4) == fields[4] && FieldAt(t, 5) == fields[5];
    assert FieldAt(t, 6) == fields[6] && FieldAt(t, 7) == fields[7] && FieldAt(t, 8) == fields[8];
    hide Fields, FieldAt;
    assert FieldsTo(t, |ORDER|) == fields;
  }

  /** The reply to a challenge; without a nonce the source takes the length of NULL. */
  function ReplyTo(challenge: Bytes, node: Bytes, domain: Bytes, password: Bytes): Outcome<Bytes>
    requires challenge != []
  {
    match ParseChallenge(challenge)
    case Failed => Failed
    case Stray => Stray
    case Done(table) =>
      if NONCE in table then Done(Encode(AddKeys(Fields(table, node, domain, password)))) else Stray
  }

  /** sasl_digest_md5, from the two parts of the JID on. */
  method SaslDigestMd5(challenge: Bytes, node: Bytes, domain: Bytes, password: Bytes) returns (result: Outcome<Bytes>)
    requires challenge != []
    requires ParseChallenge(challenge).Done? ==>
               var table := ParseChallenge(challenge).value; forall key :: key in table ==> Fits(table[key])
    requires Fits(node) && Fits(domain) && Fits(password) && Fits(XMPP + domain)
    ensures result == ReplyTo(challenge, node, domain, password)
  {
    hide ParseChallenge, Response, AddKeys, Encode, A1, A2;
    var parsed := ParseDigestChallenge(challenge);
    if !parsed.Done? {
      return if parsed.Failed? then Failed else Stray;
    }
    var table := parsed.value;
    if NONCE !in table {
      return Stray;
    }
    var realm := RealmOf(table, domain);
    var filled := Filled(table, node, domain);
    FilledHolds(table, node, domain);
    FilledFits(table, node, domain);
    var response := ComputeResponse(filled, node, realm, password);
    assert response == ResponseTo(table, node, domain, password);
    OrderIsFields(table, node, domain, password);
    var text := Assemble(filled[RESPONSE := response]);
    TextLong(table, node, domain, password);
    var cbuf := EncodeBuffer(text);
    result := Done(cbuf[..cbuf.Length - 1]);
  }

  lemma {:induction false} FilledFits(table: Table, node: Bytes, domain: Bytes)
    requires forall key :: key in table ==> Fits(table[key])
    requires Fits(node) && Fits(domain) && Fits(XMPP + domain)
    ensures forall key :: key in Filled(table, node, domain) ==> Fits(Filled(table, node, domain)[key])
    ensures Fits(RealmOf(table, domain))
  {
  }

  /** The text is long enough for the encoder. */
  lemma {:induction false} TextLong(table: Table, node: Bytes, domain: Bytes, password: Bytes)
    ensures |AddKeys(Fields(table, node, domain, password))| >= 2
  {
    hide ResponseTo, RealmOf, Get;
    var fields := Fields(table, node, domain, password);
    AddKeysIsLine(fields);
    hide AddKeys;
  }

  // ----- what the server reads

  predicate HexByte(c: bv8) { 48 <= c <= 57 || 97 <= c <= 102 }

  lemma {:induction false} HexDigits(b: Bytes)
    ensures forall c :: c in Hex(b) ==> HexByte(c)
  {
    if b != [] {
      OneHex(b[0]);
      HexDigits(b[1..]);
      hide HexByte, HexDigit;
    }
  }

  lemma {:induction false} OneHex(c: bv8)
    ensures HexByte(HexDigit((c >> 4) & 0x0F)) && HexByte(HexDigit(c & 0x0F))
  {
  }

  lemma {:induction false} HexIsGood(key: Bytes, b: Bytes)
    ensures GoodValue(Field(key, Hex(b), false)) && 0 !in Hex(b)
  {
    HexDigits(b);
    hide Hex;
    if Hex(b) != [] {
      assert Hex(b)[0] in Hex(b);
    }
  }

  lemma {:induction false} KeysGood()
    ensures GoodKey(USERNAME) && GoodKey(REALM) && GoodKey(NONCE) && GoodKey(CNONCE) && GoodKey(NC) && GoodKey(QOP)
    ensures GoodKey(DIGEST_URI) && GoodKey(RESPONSE) && GoodKey(CHARSET)
  {
    KeysWhole();
    KeysSevenBit();
    hide WholeKey, SevenBit, HashKey.Names;
    HashKey.SevenBitNames(USERNAME, BUCKETS);
    HashKey.SevenBitNames(REALM, BUCKETS);
    HashKey.SevenBitNames(NONCE, BUCKETS);
    HashKey.SevenBitNames(CNONCE, BUCKETS);
    HashKey.SevenBitNames(NC, BUCKETS);
    HashKey.SevenBitNames(QOP, BUCKETS);
    HashKey.SevenBitNames(DIGEST_URI, BUCKETS);
    HashKey.SevenBitNames(RESPONSE, BUCKETS);
    HashKey.SevenBitNames(CHARSET, BUCKETS);
  }

  lemma {:induction false} KeysWhole()
    ensures WholeKey(USERNAME) && WholeKey(REALM) && WholeKey(NONCE) && WholeKey(CNONCE) && WholeKey(NC) && WholeKey(QOP)
    ensures WholeKey(DIGEST_URI) && WholeKey(RESPONSE) && WholeKey(CHARSET)
    ensures 0 !in USERNAME && 0 !in REALM && 0 !in NONCE && 0 !in CNONCE && 0 !in NC && 0 !in QOP
    ensures 0 !in DIGEST_URI && 0 !in RESPONSE && 0 !in CHARSET
  {
  }

  lemma {:induction false} KeysSevenBit()
    ensures SevenBit(USERNAME) && SevenBit(REALM) && SevenBit(NONCE) && SevenBit(CNONCE) && SevenBit(NC)
    ensures SevenBit(QOP) && SevenBit(DIGEST_URI) && SevenBit(RESPONSE) && SevenBit(CHARSET)
  {
  }

  lemma {:induction false} ConstantsGood()
    ensures QUOTE !in CNONCE_VALUE && 0 !in CNONCE_VALUE
    ensures GoodValue(Field(NC, NC_VALUE, false)) && 0 !in NC_VALUE
    ensures GoodValue(Field(QOP, AUTH, false)) && 0 !in AUTH
    ensures QUOTE !in XMPP && 0 !in XMPP
  {
  }

  /** Values that come from outside: no double quote, and none of the bytes that end a string. */
  predicate Quotable(value: Bytes) { QUOTE !in value && 0 !in value }

  lemma {:induction false} FieldsGood(table: Table, node: Bytes, domain: Bytes, password: Bytes)
    requires Quotable(node) && Quotable(domain) && Quotable(RealmOf(table, domain)) && Quotable(Get(table, NONCE))
    requires GoodValue(Field(CHARSET, Get(table, CHARSET), false)) && 0 !in Get(table, CHARSET)
    ensures forall f :: f in Fields(table, node, domain, password) ==> Good(f) && NoNull(f)
  {
    KeysGood();
    KeysWhole();
    ConstantsGood();
    ResponseGood(table, node, domain, password);
    hide ResponseTo, RealmOf, Get, GoodKey;
    var fields := Fields(table, node, domain, password);
    assert forall i :: 0 <= i < |fields| ==> Good(fields[i]) && NoNull(fields[i]);
  }

  lemma {:induction false} ResponseGood(table: Table, node: Bytes, domain: Bytes, password: Bytes)
    ensures var value := ResponseTo(table, node, domain, password);
            GoodValue(Field(RESPONSE, value, false)) && 0 !in value
  {
    var nonce := Get(table, NONCE);
    var a1 := A1(node, RealmOf(table, domain), password, nonce, CNONCE_VALUE);
    var a2 := A2(XMPP + domain, AUTH);
    HexIsGood(RESPONSE, H(Hex(H(a1)) + COLON + nonce + COLON + NC_VALUE + COLON + CNONCE_VALUE + COLON + AUTH + COLON + Hex(H(a2))));
    hide A1, A2, H, Hex, GoodValue;
  }

  /**
   Main result: the code that reads challenges reads from the reply exactly the nine fields of
   section 2.1.2 of RFC 2831, the response among them, if no sign spreads in its text.
   */
  lemma {:induction false} ReplyIsUnderstood(table: Table, node: Bytes, domain: Bytes, password: Bytes)
    requires Quotable(node) && Quotable(domain) && Quotable(RealmOf(table, domain)) && Quotable(Get(table, NONCE))
    requires GoodValue(Field(CHARSET, Get(table, CHARSET), false)) && 0 !in Get(table, CHARSET)
    requires Kept(AddKeys(Fields(table, node, domain, password)))
    ensures var fields := Fields(table, node, domain, password); Reads(Encode(AddKeys(fields)), fields)
  {
    var fields := Fields(table, node, domain, password);
    assert fields != [];
    hide *;
    FieldsGood(table, node, domain, password);
    KeysDiffer(table, node, domain, password);
    GoodFieldsRead(fields);
  }

  /** None does when what comes from outside is seven-bit. */
  lemma {:induction false} SevenBitReply(table: Table, node: Bytes, domain: Bytes, password: Bytes)
    requires SevenBit(node) && SevenBit(domain) && SevenBit(Get(table, REALM)) && SevenBit(Get(table, NONCE))
    requires SevenBit(Get(table, CHARSET))
    ensures Kept(AddKeys(Fields(table, node, domain, password)))
  {
    KeysSevenBit();
    ConstantsSevenBit();
    ResponseSevenBit(table, node, domain, password);
    hide ResponseTo, Get, Kept, SevenBit;
    var fields := Fields(table, node, domain, password);
    UriSevenBit(domain);
    assert forall i :: 0 <= i < |fields| ==> SevenBit(fields[i].key) && SevenBit(fields[i].value);
    SevenBitLine(fields);
  }

  lemma {:induction false} ConstantsSevenBit()
    ensures SevenBit(CNONCE_VALUE) && SevenBit(NC_VALUE) && SevenBit(AUTH) && SevenBit(XMPP)
  {
  }

  lemma {:induction false} UriSevenBit(domain: Bytes)
    requires SevenBit(domain)
    ensures SevenBit(XMPP + domain)
  {
    ConstantsSevenBit();
  }

  lemma {:induction false} ResponseSevenBit(table: Table, node: Bytes, domain: Bytes, password: Bytes)
    ensures SevenBit(ResponseTo(table, node, domain, password))
  {
    var nonce := Get(table, NONCE);
    var a1 := A1(node, RealmOf(table, domain), password, nonce, CNONCE_VALUE);
    var a2 := A2(XMPP + domain, AUTH);
    HexDigits(H(Hex(H(a1)) + COLON + nonce + COLON + NC_VALUE + COLON + CNONCE_VALUE + COLON + AUTH + COLON + Hex(H(a2))));
    hide A1, A2, H, Hex;
  }
}
