/**
 The reply of DIGEST-MD5 in src/xmpp-sasl.c: assembled key by key, and read back by the same
 scanner that reads challenges as the same keys and values.
 */
module DigestReply {
  import opened Wrappers
  import opened Base64
  import opened DigestText
  import opened SignedChar
  import HashKey

  /** A key with its value and whether the value goes in quotes. */
  datatype Field = Field(key: Bytes, value: Bytes, quote: bool)

  function Shown(f: Field): Bytes {
    if f.quote then [QUOTE] + f.value + [QUOTE] else f.value
  }

  function Item(f: Field): Bytes { f.key + [EQUALS] + Shown(f) }

  /** _add_key: the new text behind the old one, with a comma unless that is empty. */
  function AddKey(buf: Bytes, f: Field): Bytes {
    buf + (if buf != [] then [COMMA] else []) + Item(f)
  }

  function AddKeys(fields: seq<Field>): Bytes {
    if fields == [] then [] else AddKey(AddKeys(fields[..|fields| - 1]), fields[|fields| - 1])
  }

  /** The same text from the front: items with commas in between. */
  function Line(fields: seq<Field>): Bytes {
    if fields == [] then []
    else if |fields| == 1 then Item(fields[0])
    else Item(fields[0]) + [COMMA] + Line(fields[1..])
  }

  lemma {:induction false} LineOn(fields: seq<Field>, f: Field)
    ensures Line(fields + [f]) == if fields == [] then Item(f) else Line(fields) + [COMMA] + Item(f)
  {
    hide Item;
    if fields != [] {
      assert (fields + [f])[1..] == fields[1..] + [f];
      LineOn(fields[1..], f);
    }
  }

  lemma {:induction false} LineNotEmpty(fields: seq<Field>)
    ensures fields != [] <==> Line(fields) != []
  {
  }

  lemma {:induction false} AddKeyOnLine(fields: seq<Field>, f: Field)
    ensures AddKey(Line(fields), f) == Line(fields + [f])
  {
    LineOn(fields, f);
    LineNotEmpty(fields);
    hide Item, Line;
    if fields == [] {
      assert [] + [] + Item(f) == Item(f);
    }
  }

  lemma {:induction false} AddKeysIsLine(fields: seq<Field>)
    ensures AddKeys(fields) == Line(fields)
  {
    hide AddKey, Item;
    if fields != [] {
      var n := |fields| - 1;
      AddKeysIsLine(fields[..n]);
      AddKeyOnLine(fields[..n], fields[n]);
      assert fields == fields[..n] + [fields[n]];
      hide Line;
    }
  }

  // ----- which fields survive

  /** A key the scanner finds whole. */
  predicate WholeKey(key: Bytes) {
    key != [] && EQUALS !in key && key[0] != COMMA && key[0] != SPACE
  }

  /** And one the table has a bucket for. */
  predicate GoodKey(key: Bytes) { WholeKey(key) && HashKey.Names(key, BUCKETS) }

  /** No double quote within quotes; without them no comma, and no quote at the start. */
  predicate GoodValue(f: Field) {
    if f.quote then QUOTE !in f.value
    else COMMA !in f.value && (f.value != [] ==> f.value[0] != QUOTE && f.value[0] != APOSTROPHE)
  }

  predicate Good(f: Field) { GoodKey(f.key) && GoodValue(f) }

  function PutAll(table: Table, fields: seq<Field>): Table
    decreases |fields|
  {
    if fields == [] then table else PutAll(Put(table, fields[0].key, fields[0].value), fields[1..])
  }

  lemma {:induction false} FindAfter(a: Bytes, c: bv8, b: Bytes)
    requires c !in a
    ensures Find(a + [c] + b, c) == |a| && Find(a, c) == |a|
  {
    if a != [] {
      assert (a + [c] + b)[1..] == a[1..] + [c] + b;
      FindAfter(a[1..], c, b);
    }
  }

  /** One good item, at the end or before a comma, is one turn of the scanner. */
  lemma {:induction false} ScanItem(f: Field, tail: Bytes)
    requires Good(f) && (tail == [] || tail[0] == COMMA)
    ensures Scan1(Item(f) + tail) == Some(Entry(f.key, f.value, tail))
  {
    hide GoodValue, Shown, Find, Value, Skip, Scan1;
    var v := Shown(f) + tail;
    assert Item(f) + tail == f.key + [EQUALS] + v;
    FindAfter(f.key, EQUALS, v);
    SkipNothing(f.key + [EQUALS] + v);
    ScanSplit(f.key, v);
    ValueOfShown(f, tail);
  }

  lemma {:induction false} ScanSplit(key: Bytes, v: Bytes)
    requires Skip(key + [EQUALS] + v) == key + [EQUALS] + v && Find(key + [EQUALS] + v, EQUALS) == |key|
    ensures Scan1(key + [EQUALS] + v) == Some(Entry(key, Value(v).0, Value(v).1))
  {
    hide Find, Value, Skip;
    var t := key + [EQUALS] + v;
    assert t[..|key|] == key && t[|key| + 1..] == v;
  }

  lemma {:induction false} SkipNothing(t: Bytes)
    requires t != [] && t[0] != COMMA && t[0] != SPACE
    ensures Skip(t) == t
  {
  }

  lemma {:induction false} ValueOfShown(f: Field, tail: Bytes)
    requires GoodValue(f) && (tail == [] || tail[0] == COMMA)
    ensures Value(Shown(f) + tail) == (f.value, tail)
  {
    hide Find, Value;
    if f.quote {
      QuotedValue(f.value, tail);
      assert Shown(f) + tail == [QUOTE] + (f.value + [QUOTE] + tail);
    } else {
      BareValue(f.value, tail);
    }
  }

  lemma {:induction false} QuotedValue(value: Bytes, tail: Bytes)
    requires QUOTE !in value
    ensures Value([QUOTE] + (value + [QUOTE] + tail)) == (value, tail)
  {
    hide Find;
    var u := value + [QUOTE] + tail;
    assert ([QUOTE] + u)[1..] == u;
    FindAfter(value, QUOTE, tail);
    assert u[..|value|] == value && u[|value| + 1..] == tail;
  }

  lemma {:induction false} BareValue(value: Bytes, tail: Bytes)
    requires COMMA !in value && (value != [] ==> value[0] != QUOTE && value[0] != APOSTROPHE)
    requires tail == [] || tail[0] == COMMA
    ensures Value(value + tail) == (value, tail)
  {
    hide Find;
    var v := value + tail;
    if tail == [] {
      FindAfter(value, COMMA, []);
      assert v == value;
    } else {
      FindAfter(value, COMMA, tail[1..]);
      assert v == value + [COMMA] + tail[1..];
    }
    assert v[..|value|] == value && v[|value|..] == tail;
  }

  /** A comma in front is skipped. */
  lemma {:induction false} ParseComma(t: Bytes, table: Table)
    requires t != []
    ensures Parse([COMMA] + t, table) == Parse(t, table)
  {
    hide Value, Find, HashKey.Names;
    SkipComma(t);
    hide Skip;
    assert Scan1([COMMA] + t) == Scan1(t);
    hide Scan1, Put;
  }

  lemma {:induction false} SkipComma(t: Bytes)
    ensures Skip([COMMA] + t) == Skip(t)
  {
    assert ([COMMA] + t)[1..] == t;
  }

  /** The scanner reads a line of good fields back as they are, a later key replacing an equal one. */
  lemma {:induction false} ParseLine(fields: seq<Field>, table: Table)
    requires forall f :: f in fields ==> Good(f)
    ensures Parse(Line(fields), table) == Done(PutAll(table, fields))
  {
    hide Put, Scan1, Item, HashKey.Names, GoodValue;
    if fields != [] {
      var f, rest := fields[0], fields[1..];
      ItemNotEmpty(f);
      var tail := if rest == [] then [] else [COMMA] + Line(rest);
      assert Line(fields) == Item(f) + tail;
      ScanItem(f, tail);
      ParseLine(rest, Put(table, f.key, f.value));
      if rest != [] {
        LineNotEmpty(rest);
        ParseComma(Line(rest), Put(table, f.key, f.value));
      }
    }
  }

  lemma {:induction false} ItemNotEmpty(f: Field)
    ensures Item(f) != []
  {
  }

  // ----- exactly which values survive

  /** Values found in a text are shorter than the text. */
  lemma {:induction false} ParseShort(t: Bytes, table: Table, n: nat)
    requires |t| <= n && forall key :: key in table ==> |table[key]| < n
    ensures Parse(t, table).Done? ==> forall key :: key in Parse(t, table).value ==> |Parse(t, table).value[key]| < n
    decreases |t|
  {
    hide Scan1, HashKey.Names;
    if t != [] && Scan1(t).Some? {
      var e := Scan1(t).value;
      ParseShort(e.rest, Put(table, e.key, e.value), n);
    }
  }

  /** A value that is not good is cut short, and what is left to scan is no longer than it. */
  lemma {:induction false} BadValueCut(f: Field)
    requires !GoodValue(f)
    ensures var (value, rest) := Value(Shown(f)); |value| < |f.value| && |rest| <= |f.value|
  {
    if f.quote {
      var u := f.value + [QUOTE];
      assert Shown(f)[1..] == u;
      FindEarly(f.value, QUOTE, [QUOTE]);
    } else if COMMA in f.value {
      FindEarly(f.value, COMMA, []);
      assert f.value + [] == f.value;
    }
    hide Find;
  }

  lemma {:induction false} FindEarly(a: Bytes, c: bv8, b: Bytes)
    requires c in a
    ensures Find(a + b, c) < |a|
  {
    if a[0] != c {
      assert (a + b)[1..] == a[1..] + b;
      assert a == [a[0]] + a[1..];
      FindEarly(a[1..], c, b);
    }
  }

  /** Main result: a field with a proper key is read back as it is exactly when its value is good. */
  lemma {:induction false} FieldReadsBackIffGood(f: Field)
    requires GoodKey(f.key)
    ensures Parse(Item(f), map[]) == Done(map[f.key := f.value]) <==> GoodValue(f)
  {
    hide GoodValue, Value, Find, Skip, Scan1, Shown, HashKey.Names;
    var empty: Table := map[];
    if GoodValue(f) {
      ParseLine([f], empty);
    } else {
      var v := Shown(f);
      assert Item(f) == f.key + [EQUALS] + v;
      FindAfter(f.key, EQUALS, v);
      SkipNothing(Item(f));
      ScanSplit(f.key, v);
      BadValueCut(f);
      ParseShort(Value(v).1, Put(empty, f.key, Value(v).0), |f.value|);
      assert f.key in map[f.key := f.value];
    }
  }

  // ----- through Base64

  predicate NoNull(f: Field) { 0 !in f.key && 0 !in f.value }

  lemma {:induction false} LineNoNull(fields: seq<Field>)
    requires forall f :: f in fields ==> NoNull(f)
    ensures 0 !in Line(fields)
  {
    hide Item, NoNull;
    if fields != [] {
      ItemNoNull(fields[0]);
      LineNoNull(fields[1..]);
    }
  }

  lemma {:induction false} ItemNoNull(f: Field)
    requires NoNull(f)
    ensures 0 !in Item(f)
  {
  }

  lemma {:induction false} FindNone(t: Bytes, c: bv8)
    requires c !in t
    ensures Find(t, c) == |t|
  {
    if t != [] {
      FindNone(t[1..], c);
    }
  }

  /** What the scanner gets of any coded text: that text with its signs spread. */
  lemma {:induction false} CodedTextParses(text: Bytes)
    requires text != []
    ensures Encode(text) != [] && ParseChallenge(Encode(text)) == Parse(CString(Smeared(text)), map[])
  {
    hide Encode, Decoded, DecodedLen, Smeared, Kept, Parse, CString;
    DecodeOfEncode(text);
  }

  /**
   Main result: the reply assembled from good fields, coded in Base64 and read by the code that
   reads challenges, gives the same keys and values, if no sign spreads in its text.
   */
  lemma {:induction false} ReplyReadsBack(fields: seq<Field>)
    requires fields != [] && (forall f :: f in fields ==> Good(f) && NoNull(f)) && Kept(AddKeys(fields))
    ensures Encode(AddKeys(fields)) != []
    ensures ParseChallenge(Encode(AddKeys(fields))) == Done(PutAll(map[], fields))
  {
    hide Good, NoNull, Encode, Smeared, Kept, Line, AddKeys, Parse, Find, ParseChallenge;
    AddKeysIsLine(fields);
    var text := Line(fields);
    LineNotEmpty(fields);
    CodedTextParses(text);
    SmearedIffKept(text);
    LineNoNull(fields);
    FindNone(text, 0);
    ParseLine(fields, map[]);
    assert text[..|text|] == text;
  }

  /** A seven-bit reply is one in which none does. */
  lemma {:induction false} SevenBitLine(fields: seq<Field>)
    requires forall f :: f in fields ==> SevenBit(f.key) && SevenBit(f.value)
    ensures Kept(AddKeys(fields))
  {
    AddKeysIsLine(fields);
    LineSevenBit(fields);
    SevenBitKept(Line(fields));
    hide Kept, Line, AddKeys;
  }

  lemma {:induction false} LineSevenBit(fields: seq<Field>)
    requires forall f :: f in fields ==> SevenBit(f.key) && SevenBit(f.value)
    ensures SevenBit(Line(fields))
  {
    if fields != [] {
      LineSevenBit(fields[1..]);
    }
  }

  /** The values of `AccentIsMisread`, before and behind the coder. */
  const ACCENT: Bytes := [0x41, 0xC3, 0xA9]
  const SMEARED: Bytes := [255, 255, 0xA9]

  /** A single field is read as the one that its text becomes when signs spread. */
  lemma {:induction false} OneFieldRead(f: Field, g: Field)
    requires Good(g) && NoNull(g) && Smeared(Item(f)) == Item(g)
    ensures AddKeys([f]) != [] && ParseChallenge(Encode(AddKeys([f]))) == Done(map[g.key := g.value])
  {
    ItemNotEmpty(f);
    OneItem(f);
    OneItem(g);
    ParseLine([g], map[]);
    PutOne(g);
    ItemNoNull(g);
    FindNone(Item(g), 0);
    hide *;
    CodedTextParses(Item(f));
    CStringWhole(Item(g));
  }

  lemma {:induction false} OneItem(f: Field)
    ensures AddKeys([f]) == Item(f) && Line([f]) == Item(f)
  {
    AddKeysIsLine([f]);
    hide Item;
  }

  lemma {:induction false} PutOne(g: Field)
    requires g.key != []
    ensures PutAll(map[], [g]) == map[g.key := g.value]
  {
    assert [g][1..] == [];
  }

  lemma {:induction false} CStringWhole(t: Bytes)
    requires Find(t, 0) == |t|
    ensures CString(t) == t
  {
    assert t[..|t|] == t;
  }

  /** A good field whose value is two letters, the second one accented, is not read back. */
  lemma {:induction false} AccentIsMisread()
    ensures var f := Field([117], ACCENT, true);
            && Good(f) && NoNull(f) && AddKeys([f]) != []
            && ParseChallenge(Encode(AddKeys([f]))) == Done(map[[117] := SMEARED])
  {
    var f, g := Field([117], ACCENT, true), Field([117], SMEARED, true);
    KeyU();
    assert Good(f) && NoNull(f) && Good(g) && NoNull(g);
    hide *;
    AccentSmears();
    OneFieldRead(f, g);
  }

  lemma {:induction false} AccentSmears()
    ensures Smeared(Item(Field([117], ACCENT, true))) == Item(Field([117], SMEARED, true))
  {
    var text: Bytes := [117, EQUALS, QUOTE, 0x41, 0xC3, 0xA9, QUOTE];
    assert Item(Field([117], ACCENT, true)) == text;
    assert Item(Field([117], SMEARED, true)) == [117, EQUALS, QUOTE, 255, 255, 0xA9, QUOTE];
    assert text[3..] == [0x41, 0xC3, 0xA9, QUOTE] && text[3..][3..] == [QUOTE];
    hide Item;
    assert Smeared(text[3..]) == SMEARED + [QUOTE];
    assert Smeared(text) == [117, EQUALS, QUOTE] + (SMEARED + [QUOTE]);
  }

  lemma {:induction false} KeyU()
    ensures GoodKey([117])
  {
    HashKey.SevenBitNames([117], BUCKETS);
    hide HashKey.Names;
  }

  predicate DistinctKeys(fields: seq<Field>) {
    forall i, j :: 0 <= i < j < |fields| ==> fields[i].key != fields[j].key
  }

  /** A key of no field keeps what the table has for it. */
  lemma {:induction false} PutAllKeeps(table: Table, fields: seq<Field>, key: Bytes)
    requires forall f :: f in fields ==> f.key != key
    ensures key in PutAll(table, fields) <==> key in table
    ensures key in table ==> PutAll(table, fields)[key] == table[key]
    decreases |fields|
  {
    if fields != [] {
      assert fields[0] in fields;
      PutAllKeeps(Put(table, fields[0].key, fields[0].value), fields[1..], key);
    }
  }

  /** With distinct keys, each key has the value of its field. */
  lemma {:induction false} PutAllHas(table: Table, fields: seq<Field>, i: nat)
    requires DistinctKeys(fields) && i < |fields| && fields[i].key != []
    ensures fields[i].key in PutAll(table, fields) && PutAll(table, fields)[fields[i].key] == fields[i].value
    decreases |fields|
  {
    var f, rest := fields[0], fields[1..];
    var next := Put(table, f.key, f.value);
    if i == 0 {
      PutAllKeeps(next, rest, f.key);
    } else {
      PutAllHas(next, rest, i - 1);
    }
  }

  /** Each key with the value of its field, and no other keys. */
  ghost predicate Agrees(read: Table, fields: seq<Field>) {
    && (forall f :: f in fields ==> f.key in read && read[f.key] == f.value)
    && (forall key :: key in read ==> exists f :: f in fields && f.key == key)
  }

  lemma {:induction false} PutAllAgrees(fields: seq<Field>)
    requires DistinctKeys(fields) && forall f :: f in fields ==> f.key != []
    ensures Agrees(PutAll(map[], fields), fields)
  {
    hide DistinctKeys, PutAll;
    var all := PutAll(map[], fields);
    forall f | f in fields
      ensures f.key in all && all[f.key] == f.value
    {
      var i :| 0 <= i < |fields| && fields[i] == f;
      PutAllHas(map[], fields, i);
    }
    forall key | key in all
      ensures exists f :: f in fields && f.key == key
    {
      if forall f :: f in fields ==> f.key != key {
        PutAllKeeps(map[], fields, key);
        assert false;
      }
    }
  }

  /** What the code that reads challenges makes of a text. */
  ghost predicate Reads(reply: Bytes, fields: seq<Field>) {
    reply != [] && ParseChallenge(reply).Done? && Agrees(ParseChallenge(reply).value, fields)
  }

  lemma {:induction false} GoodFieldsRead(fields: seq<Field>)
    requires fields != [] && DistinctKeys(fields) && (forall f :: f in fields ==> Good(f) && NoNull(f)) && Kept(AddKeys(fields))
    ensures Reads(Encode(AddKeys(fields)), fields)
  {
    assert forall f :: f in fields ==> f.key != [];
    hide Good, NoNull, Encode, AddKeys, ParseChallenge, PutAll, DistinctKeys, Agrees;
    ReplyReadsBack(fields);
    PutAllAgrees(fields);
  }
}
