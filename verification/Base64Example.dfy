/** The alphabet of section 3 of RFC 4648 in its order, and the test vectors of its section 10. */
module Base64Example {
  import opened Base64

  lemma {:induction false} UpperCase()
    ensures [CharMap(0), CharMap(1), CharMap(2), CharMap(3), CharMap(4), CharMap(5), CharMap(6), CharMap(7), CharMap(8), CharMap(9), CharMap(10), CharMap(11), CharMap(12), CharMap(13), CharMap(14), CharMap(15), CharMap(16), CharMap(17), CharMap(18), CharMap(19), CharMap(20), CharMap(21), CharMap(22), CharMap(23), CharMap(24), CharMap(25)]
         == [65, 66, 67, 68, 69, 70, 71, 72, 73, 74, 75, 76, 77, 78, 79, 80, 81, 82, 83, 84, 85, 86, 87, 88, 89, 90]
  {
  }

  lemma {:induction false} LowerCase()
    ensures [CharMap(26), CharMap(27), CharMap(28), CharMap(29), CharMap(30), CharMap(31), CharMap(32), CharMap(33), CharMap(34), CharMap(35), CharMap(36), CharMap(37), CharMap(38), CharMap(39), CharMap(40), CharMap(41), CharMap(42), CharMap(43), CharMap(44), CharMap(45), CharMap(46), CharMap(47), CharMap(48), CharMap(49), CharMap(50), CharMap(51)]
         == [97, 98, 99, 100, 101, 102, 103, 104, 105, 106, 107, 108, 109, 110, 111, 112, 113, 114, 115, 116, 117, 118, 119, 120, 121, 122]
  {
  }

  lemma {:induction false} DigitsAndSigns()
    ensures [CharMap(52), CharMap(53), CharMap(54), CharMap(55), CharMap(56), CharMap(57), CharMap(58), CharMap(59), CharMap(60), CharMap(61), CharMap(62), CharMap(63)]
         == [48, 49, 50, 51, 52, 53, 54, 55, 56, 57, 43, 47]
  {
  }

  /** The vectors "f" to "foobar". */
  lemma {:induction false} Vectors()
    ensures Encode([102]) == [90, 103, 61, 61]
    ensures Encode([102, 111]) == [90, 109, 56, 61]
    ensures Encode([102, 111, 111]) == [90, 109, 57, 118]
    ensures Encode([102, 111, 111, 98]) == [90, 109, 57, 118, 89, 103, 61, 61]
    ensures Encode([102, 111, 111, 98, 97]) == [90, 109, 57, 118, 89, 109, 69, 61]
    ensures Encode([102, 111, 111, 98, 97, 114]) == [90, 109, 57, 118, 89, 109, 70, 121]
  {
    Quads();
    Lasts();
    hide Quad, LastOne, LastTwo;
    assert [102, 111, 111][3..] == [];
    assert [102, 111, 111, 98][3..] == [98];
    assert [102, 111, 111, 98, 97][3..] == [98, 97];
    assert [102, 111, 111, 98, 97, 114][3..] == [98, 97, 114];
  }

  lemma {:induction false} Quads()
    ensures Quad(102, 111, 111) == [90, 109, 57, 118] && Quad(98, 97, 114) == [89, 109, 70, 121]
  {
  }

  lemma {:induction false} Lasts()
    ensures LastOne(102) == [90, 103, 61, 61] && LastOne(98) == [89, 103, 61, 61]
    ensures LastTwo(102, 111) == [90, 109, 56, 61] && LastTwo(98, 97) == [89, 109, 69, 61]
  {
  }
}
