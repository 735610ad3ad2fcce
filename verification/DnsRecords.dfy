/** Answers of src/srv.c: what a record laid out as in sections 4.1.3 and 4.1.4 of RFC 1035 and in RFC 2782 is read as. */
module DnsRecords {
  import opened Wrappers
  import opened DnsName
  import opened DnsEncode
  import opened DnsMessage

  type Word = v: nat | v < 0x1_0000_0000

  /** Four bytes, most significant first. */
  function Bytes32(v: Word): (r: seq<Byte>)
    ensures |r| == 4
  {
    [v / 0x100_0000, v / 0x1_0000 % 256, v / 256 % 256, v % 256]
  }

  function FixedBytes(rtype: Short, rclass: Short, ttl: Word, rdlength: Short): (r: seq<Byte>)
    ensures |r| == 10
  {
    Bytes16(rtype) + Bytes16(rclass) + Bytes32(ttl) + Bytes16(rdlength)
  }

  function SrvBytes(priority: Short, weight: Short, port: Short): (r: seq<Byte>)
    ensures |r| == 6
  {
    Bytes16(priority) + Bytes16(weight) + Bytes16(port)
  }

  /** The two bytes that stand for the rest of a name at `t`. */
  function Pointer(t: nat): (r: seq<Byte>)
    requires t < 0x4000
    ensures |r| == 2
  {
    [192 + t / 256, t % 256]
  }

  // ----- parts of a message

  lemma {:induction false} HeldAt(buf: seq<Byte>, p: nat, part: seq<Byte>, i: nat)
    requires Holds(buf, p, part) && i < |part|
    ensures p + |part| <= |buf| && buf[p + i] == part[i]
  {
    assert buf[p..p + |part|][i] == buf[p + i];
  }

  lemma {:induction false} HeldParts(buf: seq<Byte>, p: nat, a: seq<Byte>, b: seq<Byte>)
    requires Holds(buf, p, a + b)
    ensures Holds(buf, p, a) && Holds(buf, p + |a|, b)
  {
    var all := a + b;
    assert buf[p..p + |a|] == buf[p..p + |all|][..|a|] == all[..|a|] == a;
    assert buf[p + |a|..p + |all|] == buf[p..p + |all|][|a|..] == all[|a|..] == b;
  }

  lemma {:induction false} Value32Of(v: Word)
    ensures var b := Bytes32(v); Value32(b[0], b[1], b[2], b[3]) == v
  {
    assert v / 256 == v / 0x1_0000 * 256 + v / 256 % 256;
    assert v / 0x1_0000 == v / 0x100_0000 * 256 + v / 0x1_0000 % 256;
  }

  lemma {:induction false} Held16(buf: seq<Byte>, p: nat, v: Short)
    requires Holds(buf, p, Bytes16(v))
    ensures p + 2 <= |buf| && Value16(buf[p], buf[p + 1]) == v
  {
    hide Holds, Bytes16, Value16;
    HeldAt(buf, p, Bytes16(v), 0);
    HeldAt(buf, p, Bytes16(v), 1);
    NumbersReadBack(v, 0, 0);
  }

  lemma {:induction false} Held32(buf: seq<Byte>, p: nat, v: Word)
    requires Holds(buf, p, Bytes32(v))
    ensures p + 4 <= |buf| && Value32(buf[p], buf[p + 1], buf[p + 2], buf[p + 3]) == v
  {
    hide Holds, Bytes32, Value32;
    HeldAt(buf, p, Bytes32(v), 0);
    HeldAt(buf, p, Bytes32(v), 1);
    HeldAt(buf, p, Bytes32(v), 2);
    HeldAt(buf, p, Bytes32(v), 3);
    Value32Of(v);
  }

  /** Type, class, time to live and data length stand in this order. */
  lemma {:induction false} FixedReadsBack(buf: seq<Byte>, p: nat, rtype: Short, rclass: Short, ttl: Word, rdlength: Short)
    requires Holds(buf, p, FixedBytes(rtype, rclass, ttl, rdlength))
    ensures p + 10 <= |buf| && FixedAt(buf, p) == Fixed(rtype, rclass, ttl, rdlength)
  {
    hide Holds, Bytes16, Bytes32, Value16, Value32;
    HeldParts(buf, p, Bytes16(rtype) + Bytes16(rclass) + Bytes32(ttl), Bytes16(rdlength));
    HeldParts(buf, p, Bytes16(rtype) + Bytes16(rclass), Bytes32(ttl));
    HeldParts(buf, p, Bytes16(rtype), Bytes16(rclass));
    Held16(buf, p, rtype);
    Held16(buf, p + 2, rclass);
    Held32(buf, p + 4, ttl);
    Held16(buf, p + 8, rdlength);
  }

  /** Priority, weight and port stand in this order. */
  lemma {:induction false} SrvReadsBack(buf: seq<Byte>, p: nat, priority: Short, weight: Short, port: Short)
    requires Holds(buf, p, SrvBytes(priority, weight, port))
    ensures p + 6 <= |buf| && SrvAt(buf, p) == Srv(priority, weight, port)
  {
    hide Holds, Bytes16, Value16;
    HeldParts(buf, p, Bytes16(priority) + Bytes16(weight), Bytes16(port));
    HeldParts(buf, p, Bytes16(priority), Bytes16(weight));
    Held16(buf, p, priority);
    Held16(buf, p + 2, weight);
    Held16(buf, p + 4, port);
  }

  // ----- names

  /** Main result: a pointer to `t`, for every offset a pointer can hold, reads on at `t` and ends behind its two bytes. */
  lemma {:induction false} PointerReadsOn(buf: seq<Byte>, p: nat, t: nat, n: nat)
    requires t < 0x4000 && Holds(buf, p, Pointer(t))
    ensures Walk(buf, p, n + 1) == Walk(buf, t, n) && End(buf, p) == p + 2
  {
    HeldAt(buf, p, Pointer(t), 0);
    HeldAt(buf, p, Pointer(t), 1);
    assert Target(192 + t / 256, t % 256) == t;
  }

  // ----- a whole record

  /** The answer to a query for a service: a record whose name points to the one asked for. */
  function AnswerBytes(t: nat, rclass: Short, ttl: Word, rdlength: Short, priority: Short, weight: Short, port: Short,
                       target: seq<Byte>): seq<Byte>
    requires t < 0x4000
  {
    Pointer(t) + FixedBytes(SRV, rclass, ttl, rdlength) + SrvBytes(priority, weight, port) + Encode(target)
  }

  lemma {:induction false} AnswerParts(buf: seq<Byte>, p: nat, t: nat, rclass: Short, ttl: Word, rdlength: Short,
                                       priority: Short, weight: Short, port: Short, target: seq<Byte>)
    requires t < 0x4000 && Holds(buf, p, AnswerBytes(t, rclass, ttl, rdlength, priority, weight, port, target))
    ensures Holds(buf, p, Pointer(t)) && Holds(buf, p + 2, FixedBytes(SRV, rclass, ttl, rdlength))
    ensures Holds(buf, p + 12, SrvBytes(priority, weight, port)) && Holds(buf, p + 18, Encode(target))
  {
    hide Holds, Pointer, FixedBytes, SrvBytes, Encode;
    var a, b, c := Pointer(t), FixedBytes(SRV, rclass, ttl, rdlength), SrvBytes(priority, weight, port);
    HeldParts(buf, p, a + b + c, Encode(target));
    HeldParts(buf, p, a + b, c);
    HeldParts(buf, p, a, b);
  }

  /**
   Main result: an answer laid out by the standards is read as what it says: its name as the one asked
   for, which stands at `t`, its numbers each in its place, and its target behind them.
   */
  lemma {:induction false} AnswerReadsBack(buf: seq<Byte>, p: nat, name: seq<Byte>, t: nat, rclass: Short, ttl: Word, rdlength: Short,
                                           priority: Short, weight: Short, port: Short, target: seq<Byte>)
    returns (n: nat, m: nat)
    requires t < 0x4000 && Holds(buf, t, Encode(name)) && Proper(name) && 0 !in name && |name| < NAME_SIZE
    requires Holds(buf, p, AnswerBytes(t, rclass, ttl, rdlength, priority, weight, port, target))
    requires Proper(target) && 0 !in target && |target| < NAME_SIZE
    ensures Walk(buf, p, n).Some? && NameRoom(buf, p, n) && NameField(buf, p, n) == name && NameEnd(buf, p, n) == p + 2
    ensures Readable(buf, p + 2, m) && FixedAt(buf, p + 2) == Fixed(SRV, rclass, ttl, rdlength)
    ensures SrvAt(buf, p + 12) == Srv(priority, weight, port)
    ensures NameRoom(buf, p + 18, m) && NameField(buf, p + 18, m) == target
  {
    hide Holds, Pointer, FixedBytes, SrvBytes, AnswerBytes, Encode, Walk, Text, Total, End, Proper, FixedAt, SrvAt;
    AnswerParts(buf, p, t, rclass, ttl, rdlength, priority, weight, port, target);
    FixedReadsBack(buf, p + 2, SRV, rclass, ttl, rdlength);
    SrvReadsBack(buf, p + 12, priority, weight, port);
    m := NameReadsBack(buf, p + 18, target);
    var k := NameReadsBack(buf, t, name);
    PointerReadsOn(buf, p, t, k);
    n := k + 1;
  }

  // ----- bytes on the wire

  /** A header with a value of its own in each field. */
  lemma {:induction false} HeaderOnTheWire()
    ensures HeaderBytes(Header(0x1234, 1, 5, 1, 0, 1, 1, 3, 9, 0x0102, 0x0304, 0x0506, 0x0708))
         == [0x12, 0x34, 0xAD, 0xB9, 1, 2, 3, 4, 5, 6, 7, 8]
  {
  }

  lemma {:induction false} NameOnTheWire()
    ensures Encode([97, 46, 98, 99]) == [1, 97, 2, 98, 99, 0]
  {
    assert Encode([98, 99]) == [2, 98, 99, 0];
  }

  /** The question for the records of type SRV and class IN of "a.bc". */
  lemma {:induction false} QuestionOnTheWire()
    ensures QuestionBytes([97, 46, 98, 99], SRV, 1) == [1, 97, 2, 98, 99, 0, 0, 33, 0, 1]
  {
    NameOnTheWire();
    assert Bytes16(SRV) == [0, 33] && Bytes16(1) == [0, 1];
    hide Encode, Bytes16;
  }

  /** An answer for the name at 0x010C: a pointer, the fixed fields, and the numbers of the service with its target. */
  lemma {:induction false} AnswerOnTheWire()
    ensures AnswerBytes(0x010C, 1, 0x0203_0405, 9, 0x0607, 0x0809, 0x0A0B, [97])
         == [0xC1, 0x0C] + [0, 33, 0, 1, 2, 3, 4, 5, 0, 9] + [6, 7, 8, 9, 10, 11] + [1, 97, 0]
  {
    assert Encode([97]) == [1, 97, 0];
    hide Encode;
    assert FixedBytes(SRV, 1, 0x0203_0405, 9) == [0, 33, 0, 1, 2, 3, 4, 5, 0, 9];
    assert SrvBytes(0x0607, 0x0809, 0x0A0B) == [6, 7, 8, 9, 10, 11];
  }
}
