/** One turn of the scanner for challenges, on every text that has the form of an entry, and on every other. */
module DigestTurns {
  import opened Wrappers
  import opened Base64
  import opened DigestText
  import DigestReply

  /** Commas and spaces. */
  predicate Blank(lead: Bytes) {
    forall k :: 0 <= k < |lead| ==> lead[k] == COMMA || lead[k] == SPACE
  }

  /** The quotes a value may stand in: double ones or single ones. */
  predicate IsQuote(q: bv8) { q == 34 || q == 39 }

  /** `v` is `value`, in quotes and closed by the same quote, or left open at the end, or bare up to a comma, and then `rest`. */
  ghost predicate Shows(v: Bytes, value: Bytes, rest: Bytes) {
    || (exists q: bv8 :: IsQuote(q) && q !in value && v == [q] + value + [q] + rest)
    || (exists q: bv8 :: IsQuote(q) && q !in value && v == [q] + value && rest == [])
    || (v == value + rest && COMMA !in value && (rest == [] || rest[0] == COMMA) && (v == [] || !IsQuote(v[0])))
  }

  lemma {:induction false} SkipBlank(lead: Bytes, t: Bytes)
    requires Blank(lead) && (t == [] || (t[0] != COMMA && t[0] != SPACE))
    ensures Skip(lead + t) == t
  {
    if lead == [] {
      assert [] + t == t;
    } else {
      assert (lead + t)[1..] == lead[1..] + t;
      SkipBlank(lead[1..], t);
    }
  }

  lemma {:induction false} ClosedValue(q: bv8, value: Bytes, rest: Bytes)
    requires IsQuote(q) && q !in value
    ensures Value([q] + value + [q] + rest) == (value, rest)
  {
    hide Find;
    var v := [q] + value + [q] + rest;
    var u := value + [q] + rest;
    assert v[1..] == u;
    DigestReply.FindAfter(value, q, rest);
    assert u[..|value|] == value && u[|value| + 1..] == rest;
  }

  lemma {:induction false} OpenValue(q: bv8, value: Bytes)
    requires IsQuote(q) && q !in value
    ensures Value([q] + value) == (value, [])
  {
    hide Find;
    var v := [q] + value;
    assert v[1..] == value;
    DigestReply.FindNone(value, q);
    assert value[..|value|] == value;
  }

  lemma {:induction false} ShownValue(v: Bytes, value: Bytes, rest: Bytes)
    requires Shows(v, value, rest)
    ensures Value(v) == (value, rest)
  {
    hide Value;
    if q: bv8 :| IsQuote(q) && q !in value && v == [q] + value + [q] + rest {
      ClosedValue(q, value, rest);
    } else if q: bv8 :| IsQuote(q) && q !in value && v == [q] + value && rest == [] {
      OpenValue(q, value);
    } else {
      BareValue(value, rest);
    }
  }

  lemma {:induction false} BareValue(value: Bytes, rest: Bytes)
    requires COMMA !in value && (rest == [] || rest[0] == COMMA) && (value + rest == [] || !IsQuote((value + rest)[0]))
    ensures Value(value + rest) == (value, rest)
  {
    hide Find;
    var v := value + rest;
    if rest == [] {
      DigestReply.FindNone(value, COMMA);
      assert v == value;
    } else {
      DigestReply.FindAfter(value, COMMA, rest[1..]);
      assert v == value + [COMMA] + rest[1..];
    }
    assert v[..|value|] == value && v[|value|..] == rest;
  }

  lemma {:induction false} ScanAs(t: Bytes, key: Bytes, v: Bytes)
    requires Skip(t) == key + [EQUALS] + v && Find(key + [EQUALS] + v, EQUALS) == |key|
    ensures Scan1(t) == Some(Entry(key, Value(v).0, Value(v).1))
  {
    hide Find, Value, Skip;
    var u := key + [EQUALS] + v;
    assert u[..|key|] == key && u[|key| + 1..] == v;
  }

  /**
   Main result: behind any commas and spaces an entry is read as its key, its value without the quotes, and the text
   behind it.
   */
  lemma {:induction false} TurnReads(lead: Bytes, key: Bytes, v: Bytes, value: Bytes, rest: Bytes)
    requires Blank(lead) && EQUALS !in key && (key == [] || (key[0] != COMMA && key[0] != SPACE)) && Shows(v, value, rest)
    ensures Scan1(lead + (key + [EQUALS] + v)) == Some(Entry(key, value, rest))
  {
    hide Skip, Find, Value, Scan1, Shows, Blank;
    SkipBlank(lead, key + [EQUALS] + v);
    DigestReply.FindAfter(key, EQUALS, v);
    ShownValue(v, value, rest);
    ScanAs(lead + (key + [EQUALS] + v), key, v);
  }

  /** A text without '=' holds no entry. */
  lemma {:induction false} NoEntry(t: Bytes)
    requires EQUALS !in t
    ensures Scan1(t) == None
  {
    SkipIsSuffix(t);
    hide Value, Skip;
  }

  lemma {:induction false} SkipIsSuffix(t: Bytes)
    ensures forall c :: c in Skip(t) ==> c in t
  {
    if t != [] {
      SkipIsSuffix(t[1..]);
    }
  }
}
