/**
 Headers, questions and resource records in src/srv.c: sections 4.1.1 to 4.1.3 of RFC 1035.
 */
module DnsMessage {
  import opened Wrappers
  import opened DnsName
  import opened DnsEncode

  type Short = v: nat | v < 0x1_0000

  // ----- numbers, big-endian

  function Bytes16(v: Short): (r: seq<Byte>)
    ensures |r| == 2
  {
    [v / 256, v % 256]
  }

  function Value16(high: Byte, low: Byte): Short { high * 256 + low }

  function Value32(a: Byte, b: Byte, c: Byte, d: Byte): nat {
    ((a * 256 + b) * 256 + c) * 256 + d
  }

  /** netbuf_add_16bitnum */
  method Add16(buf: array<Byte>, offset: nat, num: Short) returns (offset': nat)
    requires offset + 2 <= buf.Length
    modifies buf
    ensures offset' == offset + 2
    ensures buf[..] == old(buf[..offset]) + Bytes16(num) + old(buf[offset'..])
  {
    buf[offset] := num / 256;
    buf[offset + 1] := num % 256;
    offset' := offset + 2;
  }

  /** netbuf_get_16bitnum */
  method Get16(buf: array<Byte>, offset: nat) returns (num: Short, offset': nat)
    requires offset + 2 <= buf.Length
    ensures offset' == offset + 2 && num == Value16(buf[offset], buf[offset + 1])
  {
    var high: nat, low: nat := buf[offset], buf[offset + 1];
    num := high * 256 + low;
    offset' := offset + 2;
  }

  /** netbuf_get_32bitnum */
  method Get32(buf: array<Byte>, offset: nat) returns (num: nat, offset': nat)
    requires offset + 4 <= buf.Length
    ensures offset' == offset + 4
    ensures num == Value32(buf[offset], buf[offset + 1], buf[offset + 2], buf[offset + 3]) < 0x1_0000_0000
  {
    var a: nat, b: nat, c: nat, d: nat := buf[offset], buf[offset + 1], buf[offset + 2], buf[offset + 3];
    num := a * 0x100_0000 + b * 0x1_0000 + c * 0x100 + d;
    offset' := offset + 4;
  }

  lemma {:induction false} NumbersReadBack(v: Short, high: Byte, low: Byte)
    ensures Value16(Bytes16(v)[0], Bytes16(v)[1]) == v
    ensures Bytes16(Value16(high, low)) == [high, low]
  {
  }

  // ----- the header

  datatype Header = Header(
    id: Short, qr: Byte, opcode: Byte, aa: Byte, tc: Byte, rd: Byte, ra: Byte, z: Byte, rcode: Byte,
    qdcount: Short, ancount: Short, nscount: Short, arcount: Short)

  /** The bit fields of the third byte of a header, and of the fourth. */
  datatype Five = Five(qr: nat, opcode: nat, aa: nat, tc: nat, rd: nat)
  datatype Three = Three(ra: nat, z: nat, rcode: nat)

  predicate Fit5(f: Five) { f.qr < 2 && f.opcode < 16 && f.aa < 2 && f.tc < 2 && f.rd < 2 }
  predicate Fit3(f: Three) { f.ra < 2 && f.z < 8 && f.rcode < 16 }

  function Mask5(h: Header): (f: Five)
    ensures Fit5(f)
  {
    Five(h.qr % 2, h.opcode % 16, h.aa % 2, h.tc % 2, h.rd % 2)
  }

  function Mask3(h: Header): (f: Three)
    ensures Fit3(f)
  {
    Three(h.ra % 2, h.z % 8, h.rcode % 16)
  }

  function Pack5(f: Five): Byte
    requires Fit5(f)
  {
    f.qr * 128 + f.opcode * 8 + f.aa * 4 + f.tc * 2 + f.rd
  }

  function Pack3(f: Three): Byte
    requires Fit3(f)
  {
    f.ra * 128 + f.z * 16 + f.rcode
  }

  function Unpack5(v: Byte): (f: Five)
    ensures Fit5(f)
  {
    Five(v / 128 % 2, v / 8 % 16, v / 4 % 2, v / 2 % 2, v % 2)
  }

  function Unpack3(v: Byte): (f: Three)
    ensures Fit3(f)
  {
    Three(v / 128 % 2, v / 16 % 8, v % 16)
  }

  lemma {:induction false} Unpack5OfPack5(f: Five)
    requires Fit5(f)
    ensures Unpack5(Pack5(f)) == f
  {
    var v := Pack5(f);
    QuotientsOf(v, f.qr, f.opcode, f.aa, f.tc, f.rd);
    hide Pack5;
  }

  lemma {:induction false} QuotientsOf(v: nat, a: nat, o: nat, b: nat, c: nat, d: nat)
    requires v == a * 128 + o * 8 + b * 4 + c * 2 + d && a < 2 && o < 16 && b < 2 && c < 2 && d < 2
    ensures v / 128 % 2 == a && v / 8 % 16 == o && v / 4 % 2 == b && v / 2 % 2 == c && v % 2 == d
  {
    Quotient(v, 128, a, o * 8 + b * 4 + c * 2 + d);
    Quotient(v, 8, a * 16 + o, b * 4 + c * 2 + d);
    Quotient(v, 4, a * 32 + o * 2 + b, c * 2 + d);
    Quotient(v, 2, a * 64 + o * 4 + b * 2 + c, d);
  }

  lemma {:induction false} Quotient(v: nat, k: nat, q: nat, r: nat)
    requires (k == 2 || k == 4 || k == 8 || k == 16 || k == 128) && v == k * q + r && r < k
    ensures v / k == q
  {
    if k == 2 {
    } else if k == 4 {
    } else if k == 8 {
    } else if k == 16 {
    }
  }

  lemma {:induction false} Unpack3OfPack3(f: Three)
    requires Fit3(f)
    ensures Unpack3(Pack3(f)) == f
  {
    ThreeQuotients(Pack3(f), f.ra, f.z, f.rcode);
    hide Pack3;
  }

  lemma {:induction false} ThreeQuotients(v: nat, a: nat, z: nat, r: nat)
    requires v == a * 128 + z * 16 + r && a < 2 && z < 8 && r < 16
    ensures v / 128 % 2 == a && v / 16 % 8 == z && v % 16 == r
  {
    Quotient(v, 128, a, z * 16 + r);
    Quotient(v, 16, a * 8 + z, r);
  }

  lemma {:induction false} Pack5OfUnpack5(v: Byte)
    ensures Pack5(Unpack5(v)) == v
  {
    hide Pack5;
    Quotients(v);
    Five128(v, v / 128, v / 8 % 16, v / 4 % 2, v / 2 % 2, v % 2);
  }

  lemma {:induction false} Five128(v: Byte, a: nat, o: nat, b: nat, c: nat, d: nat)
    requires v == ((a * 16 + o) * 2 + b) * 4 + c * 2 + d && a < 2 && o < 16 && b < 2 && c < 2 && d < 2
    ensures Pack5(Five(a, o, b, c, d)) == v
  {
  }

  lemma {:induction false} Quotients(v: Byte)
    ensures v / 128 < 2 && v / 128 % 2 == v / 128
    ensures v == ((v / 128 * 16 + v / 8 % 16) * 2 + v / 4 % 2) * 4 + v / 2 % 2 * 2 + v % 2
  {
    assert v / 8 == v / 128 * 16 + v / 8 % 16;
    assert v / 4 == v / 8 * 2 + v / 4 % 2;
    assert v / 2 == v / 4 * 2 + v / 2 % 2;
  }

  lemma {:induction false} Pack3OfUnpack3(v: Byte)
    ensures Pack3(Unpack3(v)) == v
  {
    assert v / 128 == v / 16 / 8;
  }

  function HeaderBytes(h: Header): (r: seq<Byte>)
    ensures |r| == 12
  {
    Bytes16(h.id) + [Pack5(Mask5(h)), Pack3(Mask3(h))]
    + Bytes16(h.qdcount) + Bytes16(h.ancount) + Bytes16(h.nscount) + Bytes16(h.arcount)
  }

  function ReadHeader(b: seq<Byte>): Header
    requires |b| == 12
  {
    var (f, g) := (Unpack5(b[2]), Unpack3(b[3]));
    Header(
      Value16(b[0], b[1]), f.qr, f.opcode, f.aa, f.tc, f.rd, g.ra, g.z, g.rcode,
      Value16(b[4], b[5]), Value16(b[6], b[7]), Value16(b[8], b[9]), Value16(b[10], b[11]))
  }

  /** Every field within the bits it is given. */
  predicate Fits(h: Header) {
    h.qr < 2 && h.opcode < 16 && h.aa < 2 && h.tc < 2 && h.rd < 2 && h.ra < 2 && h.z < 8 && h.rcode < 16
  }

  /** What a header becomes on the way: the fields cut to their bits. */
  function Masked(h: Header): Header {
    h.(qr := h.qr % 2, opcode := h.opcode % 16, aa := h.aa % 2, tc := h.tc % 2, rd := h.rd % 2,
       ra := h.ra % 2, z := h.z % 8, rcode := h.rcode % 16)
  }

  lemma {:induction false} HeaderReadsBack(h: Header)
    ensures ReadHeader(HeaderBytes(h)) == Masked(h)
  {
    hide Pack5, Pack3, Unpack5, Unpack3, Value16;
    var b := HeaderBytes(h);
    Unpack5OfPack5(Mask5(h));
    Unpack3OfPack3(Mask3(h));
    NumbersReadBack(h.id, 0, 0);
    NumbersReadBack(h.qdcount, 0, 0);
    NumbersReadBack(h.ancount, 0, 0);
    NumbersReadBack(h.nscount, 0, 0);
    NumbersReadBack(h.arcount, 0, 0);
  }

  /** Main result: a header is read back exactly when every field fits. */
  lemma {:induction false} HeaderReadsBackIffFits(h: Header)
    ensures ReadHeader(HeaderBytes(h)) == h <==> Fits(h)
  {
    hide HeaderBytes, ReadHeader;
    HeaderReadsBack(h);
  }

  /** And any twelve bytes are those of the header read from them. */
  lemma {:induction false} HeaderOfRead(b: seq<Byte>)
    requires |b| == 12
    ensures HeaderBytes(ReadHeader(b)) == b && Fits(ReadHeader(b))
  {
    var h := ReadHeader(b);
    MaskedRead(b);
    hide Pack5, Pack3, Unpack5, Unpack3, Value16, Bytes16, Mask5, Mask3;
    Pack5OfUnpack5(b[2]);
    Pack3OfUnpack3(b[3]);
    NumbersReadBack(0, b[0], b[1]);
    NumbersReadBack(0, b[4], b[5]);
    NumbersReadBack(0, b[6], b[7]);
    NumbersReadBack(0, b[8], b[9]);
    NumbersReadBack(0, b[10], b[11]);
  }

  lemma {:induction false} MaskedRead(b: seq<Byte>)
    requires |b| == 12
    ensures Mask5(ReadHeader(b)) == Unpack5(b[2]) && Mask3(ReadHeader(b)) == Unpack3(b[3])
  {
    hide Unpack5, Unpack3;
  }

  /** netbuf_add_dnsquery_header */
  method AddHeader(buf: array<Byte>, offset: nat, header: Header) returns (offset': nat)
    requires offset + 12 <= buf.Length
    modifies buf
    ensures offset' == offset + 12
    ensures buf[..] == old(buf[..offset]) + HeaderBytes(header) + old(buf[offset'..])
  {
    hide Bytes16, Pack5, Pack3, Mask5, Mask3;
    ghost var whole := buf[..];
    offset' := Add16(buf, offset, header.id);
    offset' := AddFlags(buf, offset', header, whole, offset, Bytes16(header.id));
    ghost var written := Bytes16(header.id) + [Pack5(Mask5(header)), Pack3(Mask3(header))];
    offset' := AddCount(buf, offset', header.qdcount, whole, offset, written);
    written := written + Bytes16(header.qdcount);
    offset' := AddCount(buf, offset', header.ancount, whole, offset, written);
    written := written + Bytes16(header.ancount);
    offset' := AddCount(buf, offset', header.nscount, whole, offset, written);
    written := written + Bytes16(header.nscount);
    offset' := AddCount(buf, offset', header.arcount, whole, offset, written);
  }

  /** The two bytes of bit fields, behind what is already written. */
  method AddFlags(buf: array<Byte>, p: nat, h: Header, ghost whole: seq<Byte>, ghost offset: nat, ghost written: seq<Byte>)
    returns (p': nat)
    requires p == offset + |written| && p + 2 <= buf.Length == |whole|
    requires buf[..] == whole[..offset] + written + whole[p..]
    modifies buf
    ensures p' == p + 2
    ensures buf[..] == whole[..offset] + (written + [Pack5(Mask5(h)), Pack3(Mask3(h))]) + whole[p'..]
  {
    hide Pack5, Pack3, Mask5, Mask3;
    ghost var before := buf[..];
    buf[p] := Pack5(Mask5(h));
    buf[p + 1] := Pack3(Mask3(h));
    p' := p + 2;
    Spliced(whole, offset, written, before, p, [Pack5(Mask5(h)), Pack3(Mask3(h))], buf[..]);
  }

  /** A number behind what is already written. */
  method AddCount(buf: array<Byte>, p: nat, num: Short, ghost whole: seq<Byte>, ghost offset: nat, ghost written: seq<Byte>)
    returns (p': nat)
    requires p == offset + |written| && p + 2 <= buf.Length == |whole|
    requires buf[..] == whole[..offset] + written + whole[p..]
    modifies buf
    ensures p' == p + 2
    ensures buf[..] == whole[..offset] + (written + Bytes16(num)) + whole[p'..]
  {
    ghost var before := buf[..];
    p' := Add16(buf, p, num);
    Spliced(whole, offset, written, before, p, Bytes16(num), buf[..]);
  }

  /** netbuf_get_dnsquery_header */
  method GetHeader(buf: array<Byte>, offset: nat) returns (header: Header, offset': nat)
    requires offset + 12 <= buf.Length
    ensures offset' == offset + 12 && header == ReadHeader(buf[offset..offset + 12])
  {
    var id, o := Get16(buf, offset);
    var p, q := buf[o], buf[o + 1];
    o := o + 2;
    var qdcount, ancount, nscount, arcount;
    qdcount, o := Get16(buf, o);
    ancount, o := Get16(buf, o);
    nscount, o := Get16(buf, o);
    arcount, o := Get16(buf, o);
    offset' := o;
    header := Header(id, p / 128 % 2, p / 8 % 16, p / 4 % 2, p / 2 % 2, p % 2,
      q / 128 % 2, q / 16 % 8, q % 16, qdcount, ancount, nscount, arcount);
  }

  // ----- questions

  /** netbuf_add_dnsquery_question */
  method AddQuestion(buf: array<Byte>, offset: nat, qname: seq<Byte>, qtype: Short, qclass: Short)
    returns (offset': nat)
    requires offset + |QuestionBytes(qname, qtype, qclass)| <= buf.Length
    modifies buf
    ensures offset' == offset + |QuestionBytes(qname, qtype, qclass)|
    ensures buf[..] == old(buf[..offset]) + QuestionBytes(qname, qtype, qclass) + old(buf[offset'..])
  {
    hide Encode, Bytes16;
    ghost var whole, written := buf[..], Encode(qname);
    offset' := AddDomainName(buf, offset, qname);
    offset' := AddCount(buf, offset', qtype, whole, offset, written);
    offset' := AddCount(buf, offset', qclass, whole, offset, written + Bytes16(qtype));
  }

  function QuestionBytes(qname: seq<Byte>, qtype: Short, qclass: Short): seq<Byte> {
    Encode(qname) + Bytes16(qtype) + Bytes16(qclass)
  }

  const NAME_SIZE: nat := 1024

  /** Where reading goes on after a name: a name that measures more than its field stays unread. */
  function NameEnd(buf: seq<Byte>, p: nat, n: nat): nat
    requires Walk(buf, p, n).Some?
  {
    if NAME_SIZE < Total(Walk(buf, p, n).value) then p else End(buf, p)
  }

  /** A field of 1024 bytes takes the name, or the name is not copied at all. */
  predicate NameRoom(buf: seq<Byte>, p: nat, n: nat)
    requires Walk(buf, p, n).Some?
  {
    Total(Walk(buf, p, n).value) <= NAME_SIZE ==> |Text(Walk(buf, p, n).value)| < NAME_SIZE
  }

  /**
   Main result: copying a name leaves its field if and only if the labels alone measure at most 1024
   bytes and with their dots and the end mark more than that.
   */
  lemma {:induction false} NameOverrunsIff(buf: seq<Byte>, p: nat, n: nat)
    requires Walk(buf, p, n).Some?
    ensures var labels := Walk(buf, p, n).value;
            !NameRoom(buf, p, n) <==> Total(labels) <= NAME_SIZE < Total(labels) + Dots(labels) + 1
  {
    hide Walk, Text, Total, Dots;
    WalkedLabels(buf, p, n);
    TextFitsIff(Walk(buf, p, n).value, NAME_SIZE);
  }

  /** The encoding of `k` labels of sixty bytes, and those labels. */
  const SIXTY: Label := [97] + Seq59()

  function Seq59(): (r: Label)
    ensures |r| == 59
  {
    seq(59, _ => 97)
  }

  function Sixties(k: nat): seq<Byte> {
    if k == 0 then [0] else [60] + SIXTY + Sixties(k - 1)
  }

  function Labels(k: nat): (r: seq<Label>)
    ensures |r| == k
  {
    if k == 0 then [] else [SIXTY] + Labels(k - 1)
  }

  lemma {:induction false} SixtiesRead(buf: seq<Byte>, p: nat, k: nat)
    requires Holds(buf, p, Sixties(k))
    ensures Walk(buf, p, k) == Some(Labels(k)) && Total(Labels(k)) == 60 * k
    decreases k
  {
    if k == 0 {
      assert buf[p] == buf[p..p + 1][0];
    } else {
      SixtiesSome(k - 1);
      hide Sixties, Holds, Walk, Seq59;
      assert Holds(buf, p, [60] + SIXTY + Sixties(k - 1)) by { SixtiesIs(k); }
      Pieces(buf, p, 60, SIXTY, Sixties(k - 1));
      SixtiesRead(buf, p + 61, k - 1);
      LabelHeld(buf, p, k - 1);
    }
  }

  lemma {:induction false} SixtiesSome(k: nat)
    ensures Sixties(k) != []
  {
  }

  lemma {:induction false} SixtiesIs(k: nat)
    requires k > 0
    ensures Sixties(k) == [60] + SIXTY + Sixties(k - 1)
  {
  }

  /** Seventeen of them measure 1020 bytes and make a text of 1036. */
  lemma {:induction false} SeventeenLabelsOverrun()
    ensures var message := Sixties(17);
            Walk(message, 0, 17).Some? && Total(Walk(message, 0, 17).value) == 1020 && !NameRoom(message, 0, 17)
  {
    hide Sixties, Walk, Total, Text;
    var message := Sixties(17);
    assert message[0..0 + |message|] == message;
    SixtiesRead(message, 0, 17);
    NameOverrunsIff(message, 0, 17);
    assert Labels(17)[0] == SIXTY;
  }

  /** What the field holds before its end mark. */
  function NameField(buf: seq<Byte>, p: nat, n: nat): seq<Byte>
    requires Walk(buf, p, n).Some?
  {
    if NAME_SIZE < Total(Walk(buf, p, n).value) then [] else Text(Walk(buf, p, n).value)
  }

  /** The field holds a text and its end mark. */
  predicate Shows(field: seq<Byte>, text: seq<Byte>) {
    |text| < NAME_SIZE && |text| < |field| && field[..|text| + 1] == text + [0]
  }

  /** netbuf_get_dnsquery_question; `inside` when the copied name stays in its field. */
  method GetQuestion(buf: array<Byte>, offset: nat, qname: array<Byte>, ghost n: nat)
    returns (inside: bool, qtype: Short, qclass: Short, offset': nat)
    requires buf != qname && qname.Length == NAME_SIZE && Walk(buf[..], offset, n).Some?
    requires NameEnd(buf[..], offset, n) + 4 <= buf.Length
    modifies qname
    ensures inside == NameRoom(buf[..], offset, n)
    ensures inside ==>
              var e := NameEnd(buf[..], offset, n);
              && offset' == e + 4
              && qtype == Value16(buf[e], buf[e + 1]) && qclass == Value16(buf[e + 2], buf[e + 3])
    ensures inside ==> Shows(qname[..], NameField(buf[..], offset, n))
  {
    hide Walk, Text, Total, End, Value16;
    ghost var message := buf[..];
    var r;
    qtype, qclass := 0, 0;
    inside, r, offset' := GetDomainName(buf, offset, qname, NAME_SIZE, n);
    assert buf[..] == message;
    if !inside {
      return;
    }
    qtype, offset' := Get16(buf, offset');
    qclass, offset' := Get16(buf, offset');
  }

  lemma {:induction false} TotalOfJoin(labels: seq<Label>)
    ensures Total(labels) <= |Join(labels)|
    ensures NonEmpty(labels) && labels != [] ==> Join(labels) != [] && Join(labels)[0] == labels[0][0]
  {
    JoinLength(labels);
  }

  lemma {:induction false} QuestionPieces(buf: seq<Byte>, p: nat, qname: seq<Byte>, qtype: Short, qclass: Short)
    requires Holds(buf, p, QuestionBytes(qname, qtype, qclass))
    ensures Holds(buf, p, Encode(qname))
    ensures var e := p + |Encode(qname)|;
            && e + 4 == p + |QuestionBytes(qname, qtype, qclass)| <= |buf|
            && Value16(buf[e], buf[e + 1]) == qtype && Value16(buf[e + 2], buf[e + 3]) == qclass
  {
    hide Encode, Value16, Bytes16;
    var a, b, c := Encode(qname), Bytes16(qtype), Bytes16(qclass);
    var e := |a|;
    var here := buf[p..p + e + 4];
    assert here == a + b + c;
    assert buf[p..p + e] == here[..e] == a;
    assert buf[p + e] == here[e] == b[0] && buf[p + e + 1] == here[e + 1] == b[1];
    assert buf[p + e + 2] == here[e + 2] == c[0] && buf[p + e + 3] == here[e + 3] == c[1];
    NumbersReadBack(qtype, 0, 0);
    NumbersReadBack(qclass, 0, 0);
  }

  /** A proper name is read as it was written, and its field holds it. */
  lemma {:induction false} NameReadsBack(buf: seq<Byte>, p: nat, name: seq<Byte>) returns (n: nat)
    requires Proper(name) && 0 !in name && |name| < NAME_SIZE && Holds(buf, p, Encode(name))
    ensures Walk(buf, p, n).Some? && NameRoom(buf, p, n) && NameField(buf, p, n) == name
    ensures NameEnd(buf, p, n) == p + |Encode(name)| && Total(Walk(buf, p, n).value) <= NAME_SIZE
  {
    hide Encode, Walk, Join, Text, Total, End, Proper, Holds, NonEmpty;
    n := ProperReadsBack(buf, p, name);
    var labels := Walk(buf, p, n).value;
    WalkedLabels(buf, p, n);
    TotalOfJoin(labels);
    TextIsJoin(labels);
    if labels != [] {
      assert Join(labels)[0] in Join(labels);
    }
  }

  /** Main result: a question written with a proper name is read back as it was. */
  lemma {:induction false} QuestionReadsBack(buf: seq<Byte>, p: nat, qname: seq<Byte>, qtype: Short, qclass: Short)
    returns (n: nat)
    requires Holds(buf, p, QuestionBytes(qname, qtype, qclass))
    requires Proper(qname) && 0 !in qname && |qname| < NAME_SIZE
    ensures Walk(buf, p, n).Some? && NameRoom(buf, p, n) && NameField(buf, p, n) == qname
    ensures var e := NameEnd(buf, p, n);
            && e + 4 == p + |QuestionBytes(qname, qtype, qclass)| <= |buf|
            && Value16(buf[e], buf[e + 1]) == qtype && Value16(buf[e + 2], buf[e + 3]) == qclass
  {
    hide Encode, Walk, Text, Total, End, Proper, Value16, QuestionBytes, Holds;
    QuestionPieces(buf, p, qname, qtype, qclass);
    n := NameReadsBack(buf, p, qname);
  }

  // ----- resource records

  datatype Srv = Srv(priority: Short, weight: Short, port: Short)

  const SRV: Short := 33

  function SrvAt(buf: seq<Byte>, p: nat): Srv
    requires p + 6 <= |buf|
  {
    Srv(Value16(buf[p], buf[p + 1]), Value16(buf[p + 2], buf[p + 3]), Value16(buf[p + 4], buf[p + 5]))
  }

  /** netbuf_get_dnsquery_srvrdata */
  method GetSrvData(buf: array<Byte>, offset: nat, target: array<Byte>, ghost n: nat)
    returns (inside: bool, srv: Srv, offset': nat)
    requires buf != target && target.Length == NAME_SIZE && offset + 6 <= buf.Length
    requires Walk(buf[..], offset + 6, n).Some?
    modifies target
    ensures srv == SrvAt(buf[..], offset)
    ensures inside == NameRoom(buf[..], offset + 6, n)
    ensures inside ==> offset' == NameEnd(buf[..], offset + 6, n) && Shows(target[..], NameField(buf[..], offset + 6, n))
  {
    hide Walk, Text, Total, End, Value16;
    var priority, weight, port, r;
    priority, offset' := Get16(buf, offset);
    weight, offset' := Get16(buf, offset');
    port, offset' := Get16(buf, offset');
    inside, r, offset' := GetDomainName(buf, offset', target, NAME_SIZE, n);
    srv := Srv(priority, weight, port);
  }

  /** The fields of a record between its name and its data. */
  datatype Fixed = Fixed(rtype: Short, rclass: Short, ttl: nat, rdlength: Short)

  function FixedAt(buf: seq<Byte>, p: nat): Fixed
    requires p + 10 <= |buf|
  {
    Fixed(Value16(buf[p], buf[p + 1]), Value16(buf[p + 2], buf[p + 3]),
          Value32(buf[p + 4], buf[p + 5], buf[p + 6], buf[p + 7]), Value16(buf[p + 8], buf[p + 9]))
  }

  /** The fixed fields can be read, and the name of an SRV record's target behind them. */
  predicate Readable(buf: seq<Byte>, e: nat, m: nat) {
    && e + 10 <= |buf|
    && (FixedAt(buf, e).rtype == SRV ==> e + 16 <= |buf| && Walk(buf, e + 16, m).Some?)
  }

  /**
   netbuf_get_dnsquery_resourcerecord: whatever the data of an SRV record holds and wherever
   reading it ends, the next record starts `rdlength` bytes behind the fixed fields.
   */
  method GetResourceRecord(buf: array<Byte>, offset: nat, name: array<Byte>, target: array<Byte>,
                           ghost n: nat, ghost m: nat, ghost e: nat)
    returns (inside: bool, fixed: Fixed, srv: Option<Srv>, offset': nat)
    requires buf != name && buf != target && name != target
    requires name.Length == NAME_SIZE && target.Length == NAME_SIZE
    requires Walk(buf[..], offset, n).Some? && e == NameEnd(buf[..], offset, n) && Readable(buf[..], e, m)
    modifies name, target
    ensures inside <==>
              && NameRoom(buf[..], offset, n)
              && (FixedAt(buf[..], e).rtype == SRV ==> NameRoom(buf[..], e + 16, m))
    ensures inside ==> fixed == FixedAt(buf[..], e) && offset' == e + 10 + fixed.rdlength
    ensures inside ==> Shows(name[..], NameField(buf[..], offset, n))
    ensures inside ==> srv == if fixed.rtype == SRV then Some(SrvAt(buf[..], e + 10)) else None
    ensures inside && srv.Some? ==> Shows(target[..], NameField(buf[..], e + 16, m))
    ensures inside && srv.None? ==> target[..] == old(target[..])
  {
    hide Walk, Text, Total, End, Value16, Value32;
    ghost var message := buf[..];
    var r;
    fixed, srv := Fixed(0, 0, 0, 0), None;
    inside, r, offset' := GetDomainName(buf, offset, name, NAME_SIZE, n);
    assert buf[..] == message;
    if !inside {
      return;
    }
    fixed, offset' := GetFixed(buf, offset');
    if fixed.rtype == SRV {
      var data, newoffset;
      inside, data, newoffset := GetSrvData(buf, offset', target, m);
      assert buf[..] == message;
      if !inside {
        return;
      }
      srv := Some(data);
    }
    offset' := offset' + fixed.rdlength;
  }

  method GetFixed(buf: array<Byte>, offset: nat) returns (fixed: Fixed, offset': nat)
    requires offset + 10 <= buf.Length
    ensures fixed == FixedAt(buf[..], offset) && offset' == offset + 10
  {
    hide Value16, Value32;
    var rtype, rclass, ttl, rdlength;
    rtype, offset' := Get16(buf, offset);
    rclass, offset' := Get16(buf, offset');
    ttl, offset' := Get32(buf, offset');
    rdlength, offset' := Get16(buf, offset');
    fixed := Fixed(rtype, rclass, ttl, rdlength);
  }
}
