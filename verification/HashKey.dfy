/**
 The bucket of a key in src/hash.c: four shifting characters, exclusive or, remainder. The hash is
 a signed `int`, so the remainder can be negative; exactly which keys name a bucket is proved.
 */
module HashKey {
  import opened SignedChar

  /** A character of a key is not the end mark. */
  type Char = c: bv8 | c != 0 witness 1
  type Key = seq<Char>

  /** `(int) c << shift` for the four shifts in use. */
  function Shifted(c: bv8, shift: nat): bv32 {
    if shift == 0 then Extended(c)
    else if shift == 8 then Extended(c) << 8
    else if shift == 16 then Extended(c) << 16
    else Extended(c) << 24
  }

  function Xor(h: bv32, g: bv32): bv32 { h ^ g }

  /** The hash of the first `n` characters. */
  function HashTo(key: seq<bv8>, n: nat): bv32
    requires n <= |key|
  {
    if n == 0 then 0 else Xor(HashTo(key, n - 1), Shifted(key[n - 1], (n - 1) % 4 * 8))
  }

  /** A 32-bit word as the signed int it is in the source. */
  function Signed(h: bv32): int {
    if h < 0x8000_0000 then h as int else h as int - 0x1_0000_0000
  }

  /** The remainder of C, which takes the sign of the dividend. */
  function Remainder(a: int, b: int): int
    requires b > 0
  {
    if a >= 0 then a % b else -((-a) % b)
  }

  /** The whole hash, and what _hash_key returns. */
  function Hash(key: seq<bv8>): int { Signed(HashTo(key, |key|)) }

  function Index(key: seq<bv8>, length: nat): int
    requires length > 0
  {
    Remainder(Hash(key), length)
  }

  /** The index names one of the `length` buckets. */
  predicate Names(key: seq<bv8>, length: nat)
    requires length > 0
  {
    0 <= Index(key, length) < length
  }

  // ----- exactly which keys name a bucket

  predicate High(h: bv32) { h >= 0x8000_0000 }

  /** How many of the first `n` characters have their eighth bit set. */
  function EightBit(key: seq<bv8>, n: nat): nat
    requires n <= |key|
  {
    if n == 0 then 0 else EightBit(key, n - 1) + if key[n - 1] < 128 then 0 else 1
  }

  lemma {:induction false} HighOfXor(h: bv32, g: bv32)
    ensures High(Xor(h, g)) <==> High(h) != High(g)
  {
  }

  lemma {:induction false} HighOfShifted(c: bv8, shift: nat)
    requires shift == 0 || shift == 8 || shift == 16 || shift == 24
    ensures High(Shifted(c, shift)) <==> c >= 128
  {
  }

  /** The sign of the hash is the parity of the 8-bit characters. */
  lemma {:induction false} SignIsParity(key: seq<bv8>, n: nat)
    requires n <= |key|
    ensures High(HashTo(key, n)) <==> EightBit(key, n) % 2 == 1
  {
    hide High, Xor, Shifted;
    if n == 0 {
      ZeroIsLow();
    } else {
      SignIsParity(key, n - 1);
      HighOfShifted(key[n - 1], (n - 1) % 4 * 8);
      HighOfXor(HashTo(key, n - 1), Shifted(key[n - 1], (n - 1) % 4 * 8));
    }
  }

  lemma {:induction false} ZeroIsLow()
    ensures !High(0)
  {
  }

  lemma {:induction false} RemainderSign(a: int, b: int)
    requires b > 0
    ensures 0 <= Remainder(a, b) < b <==> a >= 0 || a % b == 0
  {
    if a < 0 {
      var q, r := a / b, a % b;
      assert -a == b * -q - r;
      if r != 0 {
        NegatedRemainder(-a, b, -q - 1, b - r);
      } else {
        NegatedRemainder(-a, b, -q, 0);
      }
    }
  }

  lemma {:induction false} NegatedRemainder(a: int, b: int, q: int, r: int)
    requires b > 0 && a == b * q + r && 0 <= r < b
    ensures a % b == r
  {
    var d := a / b - q;
    assert b * d == b * (a / b) - b * q == r - a % b;
    assert d >= 1 ==> b * d >= b;
    assert d <= -1 ==> b * d <= -b;
  }

  lemma {:induction false} SignOfHash(h: bv32)
    ensures Signed(h) >= 0 <==> !High(h)
  {
  }

  /**
   Main result: a key names a bucket if and only if an even number of its characters have their
   eighth bit set or the hash is a multiple of the number of buckets.
   */
  lemma {:induction false} NamesIff(key: seq<bv8>, length: nat)
    requires length > 0
    ensures Names(key, length) <==> EightBit(key, |key|) % 2 == 0 || Hash(key) % length == 0
  {
    hide HashTo, EightBit, Signed, High, Remainder;
    SignIsParity(key, |key|);
    SignOfHash(HashTo(key, |key|));
    RemainderSign(Hash(key), length);
  }

  /** Keys of seven-bit characters always do. */
  lemma {:induction false} SevenBitNames(key: seq<bv8>, length: nat)
    requires length > 0 && SevenBit(key)
    ensures Names(key, length)
  {
    NoneEightBit(key, |key|);
    NamesIff(key, length);
    hide EightBit, Names, Hash;
  }

  lemma {:induction false} NoneEightBit(key: seq<bv8>, n: nat)
    requires n <= |key| && SevenBit(key)
    ensures EightBit(key, n) == 0
  {
    if n > 0 {
      assert key[n - 1] in key;
      NoneEightBit(key, n - 1);
    }
  }

  /** One letter of Latin-1 indexes ten buckets three places in front of the first. */
  lemma {:induction false} OneLetterMisses()
    ensures Index([0xE9], 10) == -3
  {
    assert HashTo([0xE9], 0) == 0;
    assert HashTo([0xE9], 1) == Xor(0, Shifted(0xE9, 0));
    assert HashTo([0xE9], 1) == 0xFFFF_FFE9;
  }

  /** "nonce": the fifth letter meets the first one. */
  lemma {:induction false} NonceInTen()
    ensures HashTo([110, 111, 110, 99, 101], 5) == 0x636E_6F0B && Index([110, 111, 110, 99, 101], 10) == 1
  {
    var key: seq<bv8> := [110, 111, 110, 99, 101];
    assert HashTo(key, 0) == 0;
    assert HashTo(key, 1) == 0x6E;
    assert HashTo(key, 2) == 0x6F6E;
    assert HashTo(key, 3) == 0x6E_6F6E;
    assert HashTo(key, 4) == 0x636E_6F6E;
    assert HashTo(key, 5) == 0x636E_6F0B;
  }

  /** A second letter of Latin-1 spreads its sign over the upper half. */
  lemma {:induction false} SecondLetterSpreads()
    ensures HashTo([97, 0xE9], 2) == 0xFFFF_E961 && Index([97, 0xE9], 10) == -1
  {
    var key: seq<bv8> := [97, 0xE9];
    assert HashTo(key, 0) == 0;
    assert HashTo(key, 1) == 97;
    assert HashTo(key, 2) == 0xFFFF_E961;
  }

  /** _hash_key */
  method ComputeIndex(key: Key, length: nat) returns (r: int)
    requires length > 0
    ensures r == Index(key, length)
  {
    hide Shifted;
    var hash: bv32 := 0;
    var shift, n := 0, 0;
    while n < |key|
      invariant n <= |key| && shift == n % 4 * 8 && hash == HashTo(key, n)
    {
      hash := Xor(hash, Shifted(key[n], shift));
      n := n + 1;
      shift := shift + 8;
      if shift > 24 {
        shift := 0;
      }
    }
    r := Remainder(Signed(hash), length);
  }
}
