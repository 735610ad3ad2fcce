/** The padding of a message as sections 3.1 and 3.2 of RFC 1321 put it, byte by byte. */
module Md5Padding {
  import opened Md5
  import opened Md5Digest

  /** 256 to the power of `k`. */
  function Weight(k: nat): (w: nat)
    ensures w > 0
  {
    if k == 0 then 1 else 256 * Weight(k - 1)
  }

  lemma {:induction false} JoinCounts(b0: bv8, b1: bv8, b2: bv8, b3: bv8)
    ensures ((b0 as bv32) | ((b1 as bv32) << 8) | ((b2 as bv32) << 16) | ((b3 as bv32) << 24)) as nat
         == (b0 as nat) + 256 * (b1 as nat) + 0x1_0000 * (b2 as nat) + 0x100_0000 * (b3 as nat)
  {
  }

  lemma {:induction false} GetIsJoin(b0: bv8, b1: bv8, b2: bv8, b3: bv8)
    ensures Get(b0, b1, b2, b3) == ((b0 as bv32) | ((b1 as bv32) << 8) | ((b2 as bv32) << 16) | ((b3 as bv32) << 24))
  {
  }

  lemma {:induction false} GetCounts(b0: bv8, b1: bv8, b2: bv8, b3: bv8)
    ensures Get(b0, b1, b2, b3) as nat == (b0 as nat) + 256 * (b1 as nat) + 0x1_0000 * (b2 as nat) + 0x100_0000 * (b3 as nat)
  {
    hide Get;
    JoinCounts(b0, b1, b2, b3);
    GetIsJoin(b0, b1, b2, b3);
  }

  lemma {:induction false} ThereAndBack(v: bv32)
    ensures (v as nat) as bv32 == v
  {
  }

  lemma {:induction false} ThereAndBackByte(v: bv8)
    ensures (v as nat) as bv8 == v
  {
  }

  lemma {:induction false} NextByte(v: bv8)
    requires v != 255
    ensures (v + 1) as nat == (v as nat) + 1
  {
  }

  lemma {:induction false} Greatest(v: bv8)
    ensures v == 255 ==> (v as nat) == 255
  {
  }

  lemma {:induction false} ByteOf(n: nat) returns (v: bv8)
    requires n < 256
    ensures v as nat == n && n as bv8 == v
  {
    if n == 0 {
      v := 0;
    } else {
      var u := ByteOf(n - 1);
      Greatest(u);
      NextByte(u);
      v := u + 1;
      ThereAndBackByte(v);
    }
  }

  lemma {:induction false} Quotient(n: nat, w: nat, a: nat, r: nat)
    requires (w == 256 || w == 0x1_0000 || w == 0x100_0000) && n == w * a + r && r < w
    ensures n / w == a
  {
    if w == 256 {
    } else if w == 0x1_0000 {
    }
  }

  lemma {:induction false} Digits(n: nat)
    requires n < BASE
    ensures n == n % 256 + 256 * (n / 256 % 256) + 0x1_0000 * (n / 0x1_0000 % 256) + 0x100_0000 * (n / 0x100_0000 % 256)
  {
    var a := n / 256;
    var b := a / 256;
    var c := b / 256;
    Quotient(n, 0x1_0000, b, 256 * (a % 256) + n % 256);
    Quotient(n, 0x100_0000, c, 0x1_0000 * (b % 256) + 256 * (a % 256) + n % 256);
    assert n == 0x100_0000 * c + 0x1_0000 * (b % 256) + 256 * (a % 256) + n % 256;
    assert c < 256;
  }

  lemma {:induction false} WordOf(n: nat, w: bv32)
    requires n < BASE && n == w as nat
    ensures AsWord(n) == w
  {
    ThereAndBack(w);
  }

  lemma {:induction false} PutBytes(n: nat, d0: bv8, d1: bv8, d2: bv8, d3: bv8)
    requires n < BASE && n == (d0 as nat) + 256 * (d1 as nat) + 0x1_0000 * (d2 as nat) + 0x100_0000 * (d3 as nat)
    ensures Put(AsWord(n)) == [d0, d1, d2, d3]
  {
    hide Get, Put, AsWord;
    GetCounts(d0, d1, d2, d3);
    PutOfGet(d0, d1, d2, d3);
    WordOf(n, Get(d0, d1, d2, d3));
  }

  /** A stored word is its number in base 256, lowest digit first. */
  lemma {:induction false} PutDigits(n: nat)
    requires n < BASE
    ensures var p := Put(AsWord(n));
            p[0] as nat == n % 256 && p[1] as nat == n / 256 % 256
            && p[2] as nat == n / 0x1_0000 % 256 && p[3] as nat == n / 0x100_0000 % 256
  {
    hide Put, AsWord;
    Digits(n);
    var d0 := ByteOf(n % 256);
    var d1 := ByteOf(n / 256 % 256);
    var d2 := ByteOf(n / 0x1_0000 % 256);
    var d3 := ByteOf(n / 0x100_0000 % 256);
    PutBytes(n, d0, d1, d2, d3);
  }

  lemma {:induction false} Residue(n: nat, a: nat, low: nat)
    requires n == 256 * a + low
    ensures n % 256 == low % 256
  {
  }

  /** The low word holds the lower digits of the whole count. */
  lemma {:induction false} LowDigits(n: nat, q: nat, low: nat)
    requires n == q * BASE + low && low < BASE
    ensures low % 256 == n % 256 && low / 256 % 256 == n / 256 % 256
    ensures low / 0x1_0000 % 256 == n / 0x1_0000 % 256 && low / 0x100_0000 % 256 == n / 0x100_0000 % 256
  {
    Quotient(n, 256, q * 0x100_0000 + low / 256, low % 256);
    Quotient(n, 0x1_0000, q * 0x1_0000 + low / 0x1_0000, low % 0x1_0000);
    Quotient(n, 0x100_0000, q * 0x100 + low / 0x100_0000, low % 0x100_0000);
    Residue(n, q * 0x100_0000, low);
    Residue(n / 256, q * 0x1_0000, low / 256);
    Residue(n / 0x1_0000, q * 0x100, low / 0x1_0000);
    Residue(n / 0x100_0000, q, low / 0x100_0000);
  }

  lemma {:induction false} HighDigits(n: nat, q: nat)
    requires q == n / BASE
    ensures q == n / 0x1_0000_0000 && q / 256 == n / 0x100_0000_0000
    ensures q / 0x1_0000 == n / 0x1_0000_0000_0000 && q / 0x100_0000 == n / 0x100_0000_0000_0000
  {
  }

  lemma {:induction false} Weights()
    ensures Weight(0) == 1 && Weight(1) == 256 && Weight(2) == 0x1_0000 && Weight(3) == 0x100_0000
    ensures Weight(4) == 0x1_0000_0000 && Weight(5) == 0x100_0000_0000
    ensures Weight(6) == 0x1_0000_0000_0000 && Weight(7) == 0x100_0000_0000_0000
  {
  }

  /** Digit `k` of a number in base 256. */
  function Digit(n: nat, k: nat): nat {
    n / Weight(k) % 256
  }

  lemma {:induction false} PutDigit(n: nat, k: nat)
    requires n < BASE && k < 4
    ensures Put(AsWord(n))[k] as nat == Digit(n, k)
  {
    Weights();
    PutDigits(n);
    hide Put, AsWord, Weight;
  }

  lemma {:induction false} LowDigit(n: nat, k: nat)
    requires k < 4
    ensures Digit(n % BASE, k) == Digit(n, k)
  {
    Weights();
    LowDigits(n, n / BASE, n % BASE);
    hide Weight;
  }

  lemma {:induction false} HighDigit(n: nat, k: nat)
    requires k < 4
    ensures Digit(n / BASE % BASE, k) == Digit(n, k + 4)
  {
    LowDigit(n / BASE, k);
    Weights();
    HighDigits(n, n / BASE);
    hide Weight;
    assert k == 0 || k == 1 || k == 2 || k == 3;
    assert n / BASE / Weight(k) == n / Weight(k + 4);
  }

  /** The eight bytes of the length are the bit count in base 256, lowest digit first. */
  lemma {:induction false} LengthDigits(m: Bytes, k: nat)
    requires k < 8
    ensures LengthWords(m)[k] as nat == 8 * |m| / Weight(k) % 256
  {
    var n := 8 * |m|;
    assert Digit(n, k) == n / Weight(k) % 256;
    hide Put, AsWord, Digit;
    if k < 4 {
      PutDigit(n % BASE, k);
      LowDigit(n, k);
    } else {
      PutDigit(n / BASE % BASE, k - 4);
      HighDigit(n, k - 4);
    }
  }

  /**
   Main result: the padded message is the message, the byte 0x80, as many zeros as it takes to fill
   whole blocks of 64, and the number of bits of the message in eight bytes, lowest first.
   */
  lemma {:induction false} PaddedAs(m: Bytes)
    ensures var (p, n) := (Pad(m), |m|);
            && n + 9 <= |p| < n + 9 + 64 && |p| % 64 == 0
            && p[..n] == m && p[n] == 0x80
            && (forall k :: n < k < |p| - 8 ==> p[k] == 0)
            && (forall k: nat :: k < 8 ==> p[|p| - 8 + k] as nat == 8 * n / Weight(k) % 256)
  {
    hide LengthWords, Weight, ZerosNeeded;
    var p, z := Pad(m), ZerosNeeded(|m|);
    assert p == m + [0x80] + Zeros(z) + LengthWords(m);
    forall k: nat | k < 8
      ensures p[|p| - 8 + k] as nat == 8 * |m| / Weight(k) % 256
    {
      assert p[|p| - 8 + k] == LengthWords(m)[k];
      LengthDigits(m, k);
    }
  }
}
