/**
 The challenge and reply texts of DIGEST-MD5 in src/xmpp-sasl.c: a scanner for key=value lists
 and the assembly of such a list, section 2.1 of RFC 2831.
 */
module DigestText {
  import opened Wrappers
  import opened Base64
  import HashKey

  type Table = map<Bytes, Bytes>

  const COMMA: bv8 := 44
  const SPACE: bv8 := 32
  const EQUALS: bv8 := 61
  const QUOTE: bv8 := 34
  const APOSTROPHE: bv8 := 39

  // ----- the scanner

  /** Leading commas and spaces are skipped. */
  function Skip(t: Bytes): (r: Bytes)
    ensures |r| <= |t|
  {
    if t != [] && (t[0] == COMMA || t[0] == SPACE) then Skip(t[1..]) else t
  }

  /** The place of the first `c`, or the length. */
  function Find(t: Bytes, c: bv8): (k: nat)
    ensures k <= |t| && (k < |t| ==> t[k] == c) && c !in t[..k]
  {
    if t == [] || t[0] == c then 0
    else
      var k := Find(t[1..], c);
      assert t[..k + 1] == [t[0]] + t[1..][..k];
      k + 1
  }

  datatype Entry = Entry(key: Bytes, value: Bytes, rest: Bytes)

  /** A value in quotes, up to the same quote again or to the end; or up to a comma. */
  function Value(v: Bytes): (Bytes, Bytes)
  {
    if v != [] && (v[0] == APOSTROPHE || v[0] == QUOTE) then
      var u := v[1..];
      var q := Find(u, v[0]);
      (u[..q], if q < |u| then u[q + 1..] else [])
    else
      var q := Find(v, COMMA);
      (v[..q], v[q..])
  }

  /** One turn of the loop; None when no '=' is left. The scanner always advances. */
  function Scan1(t: Bytes): (r: Option<Entry>)
    ensures r.Some? ==> |r.value.rest| < |t| && |r.value.value| < |t|
  {
    var u := Skip(t);
    var k := Find(u, EQUALS);
    if k == |u| then None
    else
      var (value, rest) := Value(u[k + 1..]);
      Some(Entry(u[..k], value, rest))
  }

  /** hash_add: the empty key is refused. */
  function Put(table: Table, key: Bytes, value: Bytes): Table {
    if key == [] then table else table[key := value]
  }

  /** The number of buckets that the table of a challenge is made with. */
  const BUCKETS := 10

  /** The loop over the text; a key that names no bucket is an access outside the table's array. */
  function Parse(t: Bytes, table: Table): Outcome<Table>
    decreases |t|
  {
    if t == [] then Done(table)
    else
      match Scan1(t)
      case None => Done(table)
      case Some(e) => if HashKey.Names(e.key, BUCKETS) then Parse(e.rest, Put(table, e.key, e.value)) else Stray
  }

  /** What a C string holds of some bytes. */
  function CString(b: Bytes): Bytes {
    b[..Find(b, 0)]
  }

  /** _parse_digest_challenge, as a function of the message. */
  function ParseChallenge(msg: Bytes): Outcome<Table>
    requires msg != []
  {
    match Decoded(msg)
    case Done(text) => Parse(CString(text), map[])
    case Failed => Failed
    case Stray => Stray
  }

  /** The loop of _parse_digest_challenge over the places `s` and `t` of the text. */
  method ParseDigestChallenge(msg: Bytes) returns (result: Outcome<Table>)
    requires msg != []
    ensures result == ParseChallenge(msg)
  {
    hide Decoded, DecodedLen, Skip, Value, HashKey.Names;
    var decoded, block := DecodeBuffer(msg);
    if !decoded.Done? {
      return if decoded.Failed? then Failed else Stray;
    }
    var text := CString(decoded.value);
    var table: Table, s := map[], 0;
    assert text[0..] == text;
    while s < |text|
      invariant s <= |text| && Parse(text, map[]) == Parse(text[s..], table)
    {
      var key, value, next := ScanEntry(text, s);
      if next.None? {
        break;
      }
      if !HashKey.Names(key, BUCKETS) {
        return Stray;
      }
      table := Put(table, key, value);
      s := next.value;
    }
    result := Done(table);
  }

  /** The body of the loop, as far as the call of hash_add. */
  method ScanEntry(text: Bytes, s0: nat) returns (key: Bytes, value: Bytes, next: Option<nat>)
    requires s0 < |text|
    ensures next.None? <==> Scan1(text[s0..]).None?
    ensures next.Some? ==> s0 < next.value <= |text| && Scan1(text[s0..]) == Some(Entry(key, value, text[next.value..]))
  {
    hide Find, Value, Skip;
    var s := SkipFrom(text, s0);
    var t := FindFrom(text, s, EQUALS);
    if t == |text| {
      return [], [], None;
    }
    key := text[s..t];
    Slices(text, s, t - s);
    var end;
    value, end := ScanValue(text, t + 1);
    next := Some(end);
  }

  method SkipFrom(text: Bytes, s0: nat) returns (s: nat)
    requires s0 <= |text|
    ensures s0 <= s <= |text| && Skip(text[s0..]) == text[s..]
  {
    s := s0;
    while s < |text| && (text[s] == COMMA || text[s] == SPACE)
      invariant s0 <= s <= |text| && Skip(text[s0..]) == Skip(text[s..])
    {
      assert text[s..][1..] == text[s + 1..];
      s := s + 1;
    }
  }

  /** The value that starts at `s`, and where the scanner goes on. */
  method ScanValue(text: Bytes, s: nat) returns (value: Bytes, next: nat)
    requires s <= |text|
    ensures s <= next <= |text| && Value(text[s..]) == (value, text[next..])
  {
    hide Find;
    if s < |text| && (text[s] == APOSTROPHE || text[s] == QUOTE) {
      var t := FindFrom(text, s + 1, text[s]);
      value := text[s + 1..t];
      next := if t < |text| then t + 1 else t;
      QuotedPart(text, s, t);
    } else {
      next := FindFrom(text, s, COMMA);
      value := text[s..next];
      BarePart(text, s, next);
    }
  }

  lemma {:induction false} QuotedPart(text: Bytes, s: nat, t: nat)
    requires s < |text| && (text[s] == APOSTROPHE || text[s] == QUOTE) && t == s + 1 + Find(text[s + 1..], text[s])
    ensures Value(text[s..]) == (text[s + 1..t], text[if t < |text| then t + 1 else t..])
  {
    hide Find;
    assert text[s..][1..] == text[s + 1..];
    Slices(text, s + 1, t - s - 1);
  }

  lemma {:induction false} BarePart(text: Bytes, s: nat, t: nat)
    requires s <= |text| && t == s + Find(text[s..], COMMA)
    requires s < |text| ==> text[s] != APOSTROPHE && text[s] != QUOTE
    ensures Value(text[s..]) == (text[s..t], text[t..])
  {
    hide Find;
    Slices(text, s, t - s);
  }

  method FindFrom(text: Bytes, s: nat, c: bv8) returns (t: nat)
    requires s <= |text|
    ensures t == s + Find(text[s..], c)
  {
    t := s;
    while t < |text| && text[t] != c
      invariant s <= t <= |text| && s + Find(text[s..], c) == t + Find(text[t..], c)
    {
      assert text[t..][1..] == text[t + 1..];
      t := t + 1;
    }
  }

  lemma {:induction false} Slices(text: Bytes, s: nat, q: nat)
    requires s + q <= |text|
    ensures text[s..][..q] == text[s..s + q] && text[s..][q..] == text[s + q..]
    ensures s + q < |text| ==> text[s..][q + 1..] == text[s + q + 1..]
  {
  }
}
