/**
 The MD5 of src/md5.c: the digest of RFC 1321 as a function of the whole message, and the 64
 unrolled steps of the transform against the four indexed rounds of section 3.4.
 */
module Md5 {

  type Bytes = seq<bv8>

  // ----- words

  /** Addition of words, modulo 2^32. */
  function Add(a: bv32, b: bv32): bv32 { a + b }

  /** The word rotated left by `s` bits. */
  function Rotate(w: bv32, s: nat): bv32
    requires s <= 32
  {
    (w << s) | (w >> (32 - s))
  }

  // ----- section 3.4: the rounds

  datatype State = State(a: bv32, b: bv32, c: bv32, d: bv32)

  const INITIAL := State(0x67452301, 0xefcdab89, 0x98badcfe, 0x10325476)

  function F(x: bv32, y: bv32, z: bv32): bv32 { (x & y) | (!x & z) }
  function G(x: bv32, y: bv32, z: bv32): bv32 { (x & z) | (y & !z) }
  function H(x: bv32, y: bv32, z: bv32): bv32 { x ^ y ^ z }
  function I(x: bv32, y: bv32, z: bv32): bv32 { y ^ (x | !z) }

  function Mix(i: nat, x: bv32, y: bv32, z: bv32): bv32 {
    if i < 16 then F(x, y, z) else if i < 32 then G(x, y, z) else if i < 48 then H(x, y, z) else I(x, y, z)
  }

  /** The word of the block that step `i` reads. */
  function Pick(i: nat): (k: nat)
    ensures k < 16
  {
    if i < 16 then i else if i < 32 then (1 + 5 * i) % 16 else if i < 48 then (5 + 3 * i) % 16 else 7 * i % 16
  }

  function Turn(i: nat): (s: nat)
    ensures 0 < s < 32
  {
    var column := i % 4;
    if i < 16 then 7 + 5 * column
    else if i < 32 then (match column case 0 => 5 case 1 => 9 case 2 => 14 case _ => 20)
    else if i < 48 then (match column case 0 => 4 case 1 => 11 case 2 => 16 case _ => 23)
    else (match column case 0 => 6 case 1 => 10 case 2 => 15 case _ => 21)
  }

  /** Element i + 1 of the table T, one function for each round. */
  function Sine(i: nat): bv32
    requires i < 64
  {
    if i < 16 then Sine1(i) else if i < 32 then Sine2(i - 16) else if i < 48 then Sine3(i - 32) else Sine4(i - 48)
  }

  function Sine1(i: nat): bv32
  {
    match i
    case 0 => 0xd76aa478 case 1 => 0xe8c7b756 case 2 => 0x242070db case 3 => 0xc1bdceee
    case 4 => 0xf57c0faf case 5 => 0x4787c62a case 6 => 0xa8304613 case 7 => 0xfd469501
    case 8 => 0x698098d8 case 9 => 0x8b44f7af case 10 => 0xffff5bb1 case 11 => 0x895cd7be
    case 12 => 0x6b901122 case 13 => 0xfd987193 case 14 => 0xa679438e case 15 => 0x49b40821
    case _ => 0
  }

  function Sine2(i: nat): bv32
  {
    match i
    case 0 => 0xf61e2562 case 1 => 0xc040b340 case 2 => 0x265e5a51 case 3 => 0xe9b6c7aa
    case 4 => 0xd62f105d case 5 => 0x02441453 case 6 => 0xd8a1e681 case 7 => 0xe7d3fbc8
    case 8 => 0x21e1cde6 case 9 => 0xc33707d6 case 10 => 0xf4d50d87 case 11 => 0x455a14ed
    case 12 => 0xa9e3e905 case 13 => 0xfcefa3f8 case 14 => 0x676f02d9 case 15 => 0x8d2a4c8a
    case _ => 0
  }

  function Sine3(i: nat): bv32
  {
    match i
    case 0 => 0xfffa3942 case 1 => 0x8771f681 case 2 => 0x6d9d6122 case 3 => 0xfde5380c
    case 4 => 0xa4beea44 case 5 => 0x4bdecfa9 case 6 => 0xf6bb4b60 case 7 => 0xbebfbc70
    case 8 => 0x289b7ec6 case 9 => 0xeaa127fa case 10 => 0xd4ef3085 case 11 => 0x04881d05
    case 12 => 0xd9d4d039 case 13 => 0xe6db99e5 case 14 => 0x1fa27cf8 case 15 => 0xc4ac5665
    case _ => 0
  }

  function Sine4(i: nat): bv32
  {
    match i
    case 0 => 0xf4292244 case 1 => 0x432aff97 case 2 => 0xab9423a7 case 3 => 0xfc93a039
    case 4 => 0x655b59c3 case 5 => 0x8f0ccc92 case 6 => 0xffeff47d case 7 => 0x85845dd1
    case 8 => 0x6fa87e4f case 9 => 0xfe2ce6e0 case 10 => 0xa3014314 case 11 => 0x4e0811a1
    case 12 => 0xf7537e82 case 13 => 0xbd3af235 case 14 => 0x2ad7d2bb case 15 => 0xeb86d391
    case _ => 0
  }

  /** One step: the words change places, and the second is the new one. */
  function Step(st: State, x: seq<bv32>, i: nat): State
    requires |x| == 16 && i < 64
  {
    var sum := Add(st.a, Add(Mix(i, st.b, st.c, st.d), Add(x[Pick(i)], Sine(i))));
    State(st.d, Add(Rotate(sum, Turn(i)), st.b), st.b, st.c)
  }

  function Rounds(st: State, x: seq<bv32>, n: nat): State
    requires |x| == 16 && n <= 64
  {
    if n == 0 then st else Step(Rounds(st, x, n - 1), x, n - 1)
  }

  // ----- the transform as written

  function F1(x: bv32, y: bv32, z: bv32): bv32 { z ^ (x & (y ^ z)) }
  function F2(x: bv32, y: bv32, z: bv32): bv32 { F1(z, x, y) }
  function F3(x: bv32, y: bv32, z: bv32): bv32 { x ^ y ^ z }
  function F4(x: bv32, y: bv32, z: bv32): bv32 { y ^ (x | !z) }

  /** MD5STEP, with `f` already worked out. */
  function Md5Step(f: bv32, w: bv32, x: bv32, data: bv32, s: nat): bv32
    requires s <= 32
  {
    Add(Rotate(Add(w, Add(f, data)), s), x)
  }

  /** The optimised forms are those of the standard, bit by bit. */
  lemma {:induction false} Choose(x: bv32, y: bv32, z: bv32)
    ensures z ^ (x & (y ^ z)) == (x & y) | (!x & z)
    ensures y ^ (z & (x ^ y)) == (x & z) | (y & !z)
  {
  }

  lemma {:induction false} Definitions(x: bv32, y: bv32, z: bv32)
    ensures F1(x, y, z) == z ^ (x & (y ^ z)) && F(x, y, z) == (x & y) | (!x & z)
    ensures F2(x, y, z) == y ^ (z & (x ^ y)) && G(x, y, z) == (x & z) | (y & !z)
  {
  }

  function Optimal(i: nat, x: bv32, y: bv32, z: bv32): bv32 {
    if i < 16 then F1(x, y, z) else if i < 32 then F2(x, y, z) else if i < 48 then F3(x, y, z) else F4(x, y, z)
  }

  /** Step `i` on words named by their role in it. */
  lemma {:induction false} OneStep(st: State, x: seq<bv32>, i: nat, s: State)
    requires |x| == 16 && i < 64 && s == Rounds(st, x, i)
    ensures Rounds(st, x, i + 1)
         == State(s.d, Md5Step(Optimal(i, s.b, s.c, s.d), s.a, s.b, Add(x[Pick(i)], Sine(i)), Turn(i)), s.b, s.c)
  {
    Definitions(s.b, s.c, s.d);
    Choose(s.b, s.c, s.d);
    hide Add, Rotate, F1, F2, F, G, Sine, Pick, Turn;
  }

  // ----- Rows of the table

  predicate Row(i: nat, k: nat, t: bv32, s: nat)
    requires i < 64
  {
    Pick(i) == k && Sine(i) == t && Turn(i) == s
  }

  lemma {:induction false} Rows1()
    ensures Row(0, 0, 0xd76aa478, 7)
    ensures Row(1, 1, 0xe8c7b756, 12)
    ensures Row(2, 2, 0x242070db, 17)
    ensures Row(3, 3, 0xc1bdceee, 22)
    ensures Row(4, 4, 0xf57c0faf, 7)
    ensures Row(5, 5, 0x4787c62a, 12)
    ensures Row(6, 6, 0xa8304613, 17)
    ensures Row(7, 7, 0xfd469501, 22)
  {
  }

  lemma {:induction false} Rows2()
    ensures Row(8, 8, 0x698098d8, 7)
    ensures Row(9, 9, 0x8b44f7af, 12)
    ensures Row(10, 10, 0xffff5bb1, 17)
    ensures Row(11, 11, 0x895cd7be, 22)
    ensures Row(12, 12, 0x6b901122, 7)
    ensures Row(13, 13, 0xfd987193, 12)
    ensures Row(14, 14, 0xa679438e, 17)
    ensures Row(15, 15, 0x49b40821, 22)
  {
  }

  lemma {:induction false} Rows3()
    ensures Row(16, 1, 0xf61e2562, 5)
    ensures Row(17, 6, 0xc040b340, 9)
    ensures Row(18, 11, 0x265e5a51, 14)
    ensures Row(19, 0, 0xe9b6c7aa, 20)
    ensures Row(20, 5, 0xd62f105d, 5)
    ensures Row(21, 10, 0x02441453, 9)
    ensures Row(22, 15, 0xd8a1e681, 14)
    ensures Row(23, 4, 0xe7d3fbc8, 20)
  {
  }

  lemma {:induction false} Rows4()
    ensures Row(24, 9, 0x21e1cde6, 5)
    ensures Row(25, 14, 0xc33707d6, 9)
    ensures Row(26, 3, 0xf4d50d87, 14)
    ensures Row(27, 8, 0x455a14ed, 20)
    ensures Row(28, 13, 0xa9e3e905, 5)
    ensures Row(29, 2, 0xfcefa3f8, 9)
    ensures Row(30, 7, 0x676f02d9, 14)
    ensures Row(31, 12, 0x8d2a4c8a, 20)
  {
  }

  lemma {:induction false} Rows5()
    ensures Row(32, 5, 0xfffa3942, 4)
    ensures Row(33, 8, 0x8771f681, 11)
    ensures Row(34, 11, 0x6d9d6122, 16)
    ensures Row(35, 14, 0xfde5380c, 23)
    ensures Row(36, 1, 0xa4beea44, 4)
    ensures Row(37, 4, 0x4bdecfa9, 11)
    ensures Row(38, 7, 0xf6bb4b60, 16)
    ensures Row(39, 10, 0xbebfbc70, 23)
  {
  }

  lemma {:induction false} Rows6()
    ensures Row(40, 13, 0x289b7ec6, 4)
    ensures Row(41, 0, 0xeaa127fa, 11)
    ensures Row(42, 3, 0xd4ef3085, 16)
    ensures Row(43, 6, 0x04881d05, 23)
    ensures Row(44, 9, 0xd9d4d039, 4)
    ensures Row(45, 12, 0xe6db99e5, 11)
    ensures Row(46, 15, 0x1fa27cf8, 16)
    ensures Row(47, 2, 0xc4ac5665, 23)
  {
  }

  lemma {:induction false} Rows7()
    ensures Row(48, 0, 0xf4292244, 6)
    ensures Row(49, 7, 0x432aff97, 10)
    ensures Row(50, 14, 0xab9423a7, 15)
    ensures Row(51, 5, 0xfc93a039, 21)
    ensures Row(52, 12, 0x655b59c3, 6)
    ensures Row(53, 3, 0x8f0ccc92, 10)
    ensures Row(54, 10, 0xffeff47d, 15)
    ensures Row(55, 1, 0x85845dd1, 21)
  {
  }

  lemma {:induction false} Rows8()
    ensures Row(56, 8, 0x6fa87e4f, 6)
    ensures Row(57, 15, 0xfe2ce6e0, 10)
    ensures Row(58, 6, 0xa3014314, 15)
    ensures Row(59, 13, 0x4e0811a1, 21)
    ensures Row(60, 4, 0xf7537e82, 6)
    ensures Row(61, 11, 0xbd3af235, 10)
    ensures Row(62, 2, 0x2ad7d2bb, 15)
    ensures Row(63, 9, 0xeb86d391, 21)
  {
  }

  /** Steps 0 to 15, unrolled, on the words a, b, c and d in place. */
  method Round1(a0: bv32, b0: bv32, c0: bv32, d0: bv32, x: seq<bv32>, ghost st: State)
    returns (a: bv32, b: bv32, c: bv32, d: bv32)
    requires |x| == 16 && State(a0, b0, c0, d0) == Rounds(st, x, 0)
    ensures State(a, b, c, d) == Rounds(st, x, 16)
  {
    hide Rounds, Md5Step, Add, F1, Pick, Sine, Turn;
    a, b, c, d := a0, b0, c0, d0;
    Rows1();
    OneStep(st, x, 0, State(a, b, c, d));
    a := Md5Step(F1(b, c, d), a, b, Add(x[0], 0xd76aa478), 7);
    OneStep(st, x, 1, State(d, a, b, c));
    d := Md5Step(F1(a, b, c), d, a, Add(x[1], 0xe8c7b756), 12);
    OneStep(st, x, 2, State(c, d, a, b));
    c := Md5Step(F1(d, a, b), c, d, Add(x[2], 0x242070db), 17);
    OneStep(st, x, 3, State(b, c, d, a));
    b := Md5Step(F1(c, d, a), b, c, Add(x[3], 0xc1bdceee), 22);
    OneStep(st, x, 4, State(a, b, c, d));
    a := Md5Step(F1(b, c, d), a, b, Add(x[4], 0xf57c0faf), 7);
    OneStep(st, x, 5, State(d, a, b, c));
    d := Md5Step(F1(a, b, c), d, a, Add(x[5], 0x4787c62a), 12);
    OneStep(st, x, 6, State(c, d, a, b));
    c := Md5Step(F1(d, a, b), c, d, Add(x[6], 0xa8304613), 17);
    OneStep(st, x, 7, State(b, c, d, a));
    b := Md5Step(F1(c, d, a), b, c, Add(x[7], 0xfd469501), 22);
    Rows2();
    OneStep(st, x, 8, State(a, b, c, d));
    a := Md5Step(F1(b, c, d), a, b, Add(x[8], 0x698098d8), 7);
    OneStep(st, x, 9, State(d, a, b, c));
    d := Md5Step(F1(a, b, c), d, a, Add(x[9], 0x8b44f7af), 12);
    OneStep(st, x, 10, State(c, d, a, b));
    c := Md5Step(F1(d, a, b), c, d, Add(x[10], 0xffff5bb1), 17);
    OneStep(st, x, 11, State(b, c, d, a));
    b := Md5Step(F1(c, d, a), b, c, Add(x[11], 0x895cd7be), 22);
    OneStep(st, x, 12, State(a, b, c, d));
    a := Md5Step(F1(b, c, d), a, b, Add(x[12], 0x6b901122), 7);
    OneStep(st, x, 13, State(d, a, b, c));
    d := Md5Step(F1(a, b, c), d, a, Add(x[13], 0xfd987193), 12);
    OneStep(st, x, 14, State(c, d, a, b));
    c := Md5Step(F1(d, a, b), c, d, Add(x[14], 0xa679438e), 17);
    OneStep(st, x, 15, State(b, c, d, a));
    b := Md5Step(F1(c, d, a), b, c, Add(x[15], 0x49b40821), 22);
  }

  /** Steps 16 to 31, unrolled, on the words a, b, c and d in place. */
  method Round2(a0: bv32, b0: bv32, c0: bv32, d0: bv32, x: seq<bv32>, ghost st: State)
    returns (a: bv32, b: bv32, c: bv32, d: bv32)
    requires |x| == 16 && State(a0, b0, c0, d0) == Rounds(st, x, 16)
    ensures State(a, b, c, d) == Rounds(st, x, 32)
  {
    hide Rounds, Md5Step, Add, F2, Pick, Sine, Turn;
    a, b, c, d := a0, b0, c0, d0;
    Rows3();
    OneStep(st, x, 16, State(a, b, c, d));
    a := Md5Step(F2(b, c, d), a, b, Add(x[1], 0xf61e2562), 5);
    OneStep(st, x, 17, State(d, a, b, c));
    d := Md5Step(F2(a, b, c), d, a, Add(x[6], 0xc040b340), 9);
    OneStep(st, x, 18, State(c, d, a, b));
    c := Md5Step(F2(d, a, b), c, d, Add(x[11], 0x265e5a51), 14);
    OneStep(st, x, 19, State(b, c, d, a));
    b := Md5Step(F2(c, d, a), b, c, Add(x[0], 0xe9b6c7aa), 20);
    OneStep(st, x, 20, State(a, b, c, d));
    a := Md5Step(F2(b, c, d), a, b, Add(x[5], 0xd62f105d), 5);
    OneStep(st, x, 21, State(d, a, b, c));
    d := Md5Step(F2(a, b, c), d, a, Add(x[10], 0x02441453), 9);
    OneStep(st, x, 22, State(c, d, a, b));
    c := Md5Step(F2(d, a, b), c, d, Add(x[15], 0xd8a1e681), 14);
    OneStep(st, x, 23, State(b, c, d, a));
    b := Md5Step(F2(c, d, a), b, c, Add(x[4], 0xe7d3fbc8), 20);
    Rows4();
    OneStep(st, x, 24, State(a, b, c, d));
    a := Md5Step(F2(b, c, d), a, b, Add(x[9], 0x21e1cde6), 5);
    OneStep(st, x, 25, State(d, a, b, c));
    d := Md5Step(F2(a, b, c), d, a, Add(x[14], 0xc33707d6), 9);
    OneStep(st, x, 26, State(c, d, a, b));
    c := Md5Step(F2(d, a, b), c, d, Add(x[3], 0xf4d50d87), 14);
    OneStep(st, x, 27, State(b, c, d, a));
    b := Md5Step(F2(c, d, a), b, c, Add(x[8], 0x455a14ed), 20);
    OneStep(st, x, 28, State(a, b, c, d));
    a := Md5Step(F2(b, c, d), a, b, Add(x[13], 0xa9e3e905), 5);
    OneStep(st, x, 29, State(d, a, b, c));
    d := Md5Step(F2(a, b, c), d, a, Add(x[2], 0xfcefa3f8), 9);
    OneStep(st, x, 30, State(c, d, a, b));
    c := Md5Step(F2(d, a, b), c, d, Add(x[7], 0x676f02d9), 14);
    OneStep(st, x, 31, State(b, c, d, a));
    b := Md5Step(F2(c, d, a), b, c, Add(x[12], 0x8d2a4c8a), 20);
  }

  /** Steps 32 to 47, unrolled, on the words a, b, c and d in place. */
  method Round3(a0: bv32, b0: bv32, c0: bv32, d0: bv32, x: seq<bv32>, ghost st: State)
    returns (a: bv32, b: bv32, c: bv32, d: bv32)
    requires |x| == 16 && State(a0, b0, c0, d0) == Rounds(st, x, 32)
    ensures State(a, b, c, d) == Rounds(st, x, 48)
  {
    hide Rounds, Md5Step, Add, F3, Pick, Sine, Turn;
    a, b, c, d := a0, b0, c0, d0;
    Rows5();
    OneStep(st, x, 32, State(a, b, c, d));
    a := Md5Step(F3(b, c, d), a, b, Add(x[5], 0xfffa3942), 4);
    OneStep(st, x, 33, State(d, a, b, c));
    d := Md5Step(F3(a, b, c), d, a, Add(x[8], 0x8771f681), 11);
    OneStep(st, x, 34, State(c, d, a, b));
    c := Md5Step(F3(d, a, b), c, d, Add(x[11], 0x6d9d6122), 16);
    OneStep(st, x, 35, State(b, c, d, a));
    b := Md5Step(F3(c, d, a), b, c, Add(x[14], 0xfde5380c), 23);
    OneStep(st, x, 36, State(a, b, c, d));
    a := Md5Step(F3(b, c, d), a, b, Add(x[1], 0xa4beea44), 4);
    OneStep(st, x, 37, State(d, a, b, c));
    d := Md5Step(F3(a, b, c), d, a, Add(x[4], 0x4bdecfa9), 11);
    OneStep(st, x, 38, State(c, d, a, b));
    c := Md5Step(F3(d, a, b), c, d, Add(x[7], 0xf6bb4b60), 16);
    OneStep(st, x, 39, State(b, c, d, a));
    b := Md5Step(F3(c, d, a), b, c, Add(x[10], 0xbebfbc70), 23);
    Rows6();
    OneStep(st, x, 40, State(a, b, c, d));
    a := Md5Step(F3(b, c, d), a, b, Add(x[13], 0x289b7ec6), 4);
    OneStep(st, x, 41, State(d, a, b, c));
    d := Md5Step(F3(a, b, c), d, a, Add(x[0], 0xeaa127fa), 11);
    OneStep(st, x, 42, State(c, d, a, b));
    c := Md5Step(F3(d, a, b), c, d, Add(x[3], 0xd4ef3085), 16);
    OneStep(st, x, 43, State(b, c, d, a));
    b := Md5Step(F3(c, d, a), b, c, Add(x[6], 0x04881d05), 23);
    OneStep(st, x, 44, State(a, b, c, d));
    a := Md5Step(F3(b, c, d), a, b, Add(x[9], 0xd9d4d039), 4);
    OneStep(st, x, 45, State(d, a, b, c));
    d := Md5Step(F3(a, b, c), d, a, Add(x[12], 0xe6db99e5), 11);
    OneStep(st, x, 46, State(c, d, a, b));
    c := Md5Step(F3(d, a, b), c, d, Add(x[15], 0x1fa27cf8), 16);
    OneStep(st, x, 47, State(b, c, d, a));
    b := Md5Step(F3(c, d, a), b, c, Add(x[2], 0xc4ac5665), 23);
  }

  /** Steps 48 to 63, unrolled, on the words a, b, c and d in place. */
  method Round4(a0: bv32, b0: bv32, c0: bv32, d0: bv32, x: seq<bv32>, ghost st: State)
    returns (a: bv32, b: bv32, c: bv32, d: bv32)
    requires |x| == 16 && State(a0, b0, c0, d0) == Rounds(st, x, 48)
    ensures State(a, b, c, d) == Rounds(st, x, 64)
  {
    hide Rounds, Md5Step, Add, F4, Pick, Sine, Turn;
    a, b, c, d := a0, b0, c0, d0;
    Rows7();
    OneStep(st, x, 48, State(a, b, c, d));
    a := Md5Step(F4(b, c, d), a, b, Add(x[0], 0xf4292244), 6);
    OneStep(st, x, 49, State(d, a, b, c));
    d := Md5Step(F4(a, b, c), d, a, Add(x[7], 0x432aff97), 10);
    OneStep(st, x, 50, State(c, d, a, b));
    c := Md5Step(F4(d, a, b), c, d, Add(x[14], 0xab9423a7), 15);
    OneStep(st, x, 51, State(b, c, d, a));
    b := Md5Step(F4(c, d, a), b, c, Add(x[5], 0xfc93a039), 21);
    OneStep(st, x, 52, State(a, b, c, d));
    a := Md5Step(F4(b, c, d), a, b, Add(x[12], 0x655b59c3), 6);
    OneStep(st, x, 53, State(d, a, b, c));
    d := Md5Step(F4(a, b, c), d, a, Add(x[3], 0x8f0ccc92), 10);
    OneStep(st, x, 54, State(c, d, a, b));
    c := Md5Step(F4(d, a, b), c, d, Add(x[10], 0xffeff47d), 15);
    OneStep(st, x, 55, State(b, c, d, a));
    b := Md5Step(F4(c, d, a), b, c, Add(x[1], 0x85845dd1), 21);
    Rows8();
    OneStep(st, x, 56, State(a, b, c, d));
    a := Md5Step(F4(b, c, d), a, b, Add(x[8], 0x6fa87e4f), 6);
    OneStep(st, x, 57, State(d, a, b, c));
    d := Md5Step(F4(a, b, c), d, a, Add(x[15], 0xfe2ce6e0), 10);
    OneStep(st, x, 58, State(c, d, a, b));
    c := Md5Step(F4(d, a, b), c, d, Add(x[6], 0xa3014314), 15);
    OneStep(st, x, 59, State(b, c, d, a));
    b := Md5Step(F4(c, d, a), b, c, Add(x[13], 0x4e0811a1), 21);
    OneStep(st, x, 60, State(a, b, c, d));
    a := Md5Step(F4(b, c, d), a, b, Add(x[4], 0xf7537e82), 6);
    OneStep(st, x, 61, State(d, a, b, c));
    d := Md5Step(F4(a, b, c), d, a, Add(x[11], 0xbd3af235), 10);
    OneStep(st, x, 62, State(c, d, a, b));
    c := Md5Step(F4(d, a, b), c, d, Add(x[2], 0x2ad7d2bb), 15);
    OneStep(st, x, 63, State(b, c, d, a));
    b := Md5Step(F4(c, d, a), b, c, Add(x[9], 0xeb86d391), 21);
  }
}
