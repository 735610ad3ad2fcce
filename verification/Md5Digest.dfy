/**
 Incremental hashing in src/md5.c: whatever way a message is cut into updates, the digest is
 that of the whole message padded as in sections 3.1 and 3.2 of RFC 1321.
 */
module Md5Digest {
  import opened Md5

  // ----- bytes and words, little-endian

  /** GET_32BIT_LSB_FIRST */
  function Get(b0: bv8, b1: bv8, b2: bv8, b3: bv8): bv32 {
    (b0 as bv32) | ((b1 as bv32) << 8) | ((b2 as bv32) << 16) | ((b3 as bv32) << 24)
  }

  /** PUT_32BIT_LSB_FIRST */
  function Put(v: bv32): (r: Bytes)
    ensures |r| == 4
  {
    [(v & 0xFF) as bv8, ((v >> 8) & 0xFF) as bv8, ((v >> 16) & 0xFF) as bv8, ((v >> 24) & 0xFF) as bv8]
  }

  /** Loading and storing a word undo each other, both ways. */
  lemma {:induction false} GetOfPut(v: bv32)
    ensures var p := Put(v); Get(p[0], p[1], p[2], p[3]) == v
  {
  }

  lemma {:induction false} PutOfGet(b0: bv8, b1: bv8, b2: bv8, b3: bv8)
    ensures Put(Get(b0, b1, b2, b3)) == [b0, b1, b2, b3]
  {
  }

  function WordAt(block: Bytes, i: nat): bv32
    requires 4 * i + 4 <= |block|
  {
    Get(block[4 * i], block[4 * i + 1], block[4 * i + 2], block[4 * i + 3])
  }

  function Words(block: Bytes): (x: seq<bv32>)
    requires |block| == 64
    ensures |x| == 16
  {
    seq(16, i requires 0 <= i < 16 => WordAt(block, i))
  }

  // ----- sections 3.1 to 3.5 over a whole message

  function AddStates(s: State, t: State): State {
    State(Add(s.a, t.a), Add(s.b, t.b), Add(s.c, t.c), Add(s.d, t.d))
  }

  function Compress(st: State, block: Bytes): State
    requires |block| == 64
  {
    AddStates(st, Rounds(st, Words(block), 64))
  }

  /** The state after the blocks of `m`, from the front. */
  function Chain(m: Bytes): State
    requires |m| % 64 == 0
  {
    if m == [] then INITIAL else Compress(Chain(m[..|m| - 64]), m[|m| - 64..])
  }

  lemma {:induction false} ChainOn(m: Bytes, block: Bytes)
    requires |m| % 64 == 0 && |block| == 64
    ensures Chain(m + block) == Compress(Chain(m), block)
  {
    hide Compress;
    assert (m + block)[..|m|] == m && (m + block)[|m|..] == block;
  }

  const BASE: nat := 0x1_0000_0000

  function AsWord(n: nat): bv32
    requires n < BASE
  {
    n as bv32
  }

  /** The bit count of a message, low word first. */
  function LengthWords(m: Bytes): (r: Bytes)
    ensures |r| == 8
  {
    Put(AsWord(8 * |m| % BASE)) + Put(AsWord(8 * |m| / BASE % BASE))
  }

  function ZerosNeeded(n: nat): (z: nat)
    ensures z < 64 && (n + 1 + z) % 64 == 56
  {
    (64 + 55 - n % 64) % 64
  }

  function Zeros(n: nat): Bytes { seq(n, _ => 0) }

  /** Section 3.1. */
  function PadTo56(m: Bytes): (r: Bytes)
    ensures |r| % 64 == 56
  {
    m + [0x80] + Zeros(ZerosNeeded(|m|))
  }

  lemma {:induction false} Aligned(n: nat)
    requires n % 64 == 56
    ensures (n + 8) % 64 == 0
  {
  }

  function Pad(m: Bytes): (r: Bytes)
    ensures |r| % 64 == 0
  {
    Aligned(|PadTo56(m)|);
    PadTo56(m) + LengthWords(m)
  }

  function Output(st: State): Bytes {
    Put(st.a) + Put(st.b) + Put(st.c) + Put(st.d)
  }

  function Digest(m: Bytes): Bytes {
    Output(Chain(Pad(m)))
  }

  // ----- the context

  /** The whole blocks of a message so far, and what is left over. */
  function Whole(m: Bytes): (r: Bytes)
    ensures |r| % 64 == 0 && |r| == |m| - |m| % 64
  {
    m[..|m| - |m| % 64]
  }

  function Rest(m: Bytes): (r: Bytes)
    ensures |r| == |m| % 64
  {
    m[|m| - |m| % 64..]
  }

  /** The two halves of the bit counter, each modulo 2^32. */
  ghost predicate Counts(lo: nat, hi: nat, n: nat) {
    lo < BASE && hi < BASE && lo == 8 * n % BASE && hi == 8 * n / BASE % BASE
  }

  lemma {:induction false} Divided(x: nat, q: nat, r: nat)
    requires x == q * BASE + r && r < BASE
    ensures x / BASE == q && x % BASE == r
  {
  }

  lemma {:induction false} AddThenWrap(q: nat, k: nat)
    ensures (q % BASE + k) % BASE == (q + k) % BASE
  {
    var p := q / BASE;
    var r := (q % BASE + k) / BASE;
    Divided(q + k, p + r, (q % BASE + k) % BASE);
  }

  /** The counter of MD5Update: the carry and the shifted-out bits of a 32-bit length. */
  lemma {:induction false} CountOn(lo: nat, hi: nat, n: nat, len: nat)
    requires Counts(lo, hi, n) && len < BASE
    ensures var lo' := (lo + 8 * len % BASE) % BASE;
            var carried := if lo' < lo then (hi + 1) % BASE else hi;
            Counts(lo', (carried + len / 0x2000_0000) % BASE, n + len)
  {
    var q, p, l := 8 * n / BASE, len / 0x2000_0000, 8 * len % BASE;
    Divided(8 * len, p, 8 * (len % 0x2000_0000));
    var c := if lo + l < BASE then 0 else 1;
    Divided(lo + l, c, lo + l - c * BASE);
    Divided(8 * (n + len), q + p + c, lo + l - c * BASE);
    CountHigh(q, c, p);
  }

  lemma {:induction false} CountHigh(q: nat, c: nat, p: nat)
    requires c <= 1
    ensures ((if c == 1 then (q % BASE + 1) % BASE else q % BASE) + p) % BASE == (q + p + c) % BASE
  {
    AddThenWrap(q, c);
    AddThenWrap(q + c, p);
  }

  lemma {:induction false} CountTail(lo: nat, hi: nat, n: nat)
    requires Counts(lo, hi, n)
    ensures lo / 8 % 64 == n % 64
  {
    var k, m := n / 0x2000_0000, n % 0x2000_0000;
    assert n == k * 0x2000_0000 + m;
    Divided(8 * n, k, 8 * m);
    assert lo / 8 == m;
    TailOf(n, k * 0x80_0000, m);
  }

  lemma {:induction false} TailOf(n: nat, k: nat, m: nat)
    requires n == 64 * k + m
    ensures n % 64 == m % 64
  {
  }

  class Context {
    const buf: array<bv32>
    var lo: nat
    var hi: nat
    const data: array<bv8>

    /** History: every byte given so far. */
    ghost var message: Bytes

    ghost predicate Shaped()
      reads this
    {
      buf.Length == 4 && data.Length == 64
    }

    function Current(): State
      requires Shaped()
      reads this, buf
    {
      State(buf[0], buf[1], buf[2], buf[3])
    }

    /** The counter is 8 times the length, the buffer holds the tail, the state the blocks before. */
    ghost predicate Valid()
      reads this, buf, data
    {
      && Shaped()
      && Counts(lo, hi, |message|)
      && Current() == Chain(Whole(message))
      && data[..|message| % 64] == Rest(message)
    }

    constructor ()
      ensures Shaped() && fresh(buf) && fresh(data)
    {
      buf, data := new bv32[4], new bv8[64];
    }

    /** MD5Init */
    method Init()
      requires Shaped()
      modifies this, buf, data
      ensures Valid() && message == []
    {
      buf[0], buf[1], buf[2], buf[3] := 0x67452301, 0xefcdab89, 0x98badcfe, 0x10325476;
      lo, hi := 0, 0;
      Fill(0, 64);
      message := [];
    }

    /** memset(in + from, 0, to - from) */
    method Fill(from: nat, to: nat)
      requires Shaped() && from <= to <= 64
      modifies data
      ensures data[..] == old(data[..from]) + Zeros(to - from) + old(data[to..])
    {
      var i := from;
      while i < to
        invariant from <= i <= to
        invariant forall k :: 0 <= k < 64 ==> data[k] == if from <= k < i then 0 else old(data[k])
      {
        data[i] := 0;
        i := i + 1;
      }
      assert data[..] == old(data[..from]) + Zeros(to - from) + old(data[to..]);
    }

    /** memcpy(in + at, bytes, |bytes|) */
    method Copy(at: nat, bytes: Bytes)
      requires Shaped() && at + |bytes| <= 64
      modifies data
      ensures data[..] == old(data[..at]) + bytes + old(data[at + |bytes|..])
    {
      var i := 0;
      while i < |bytes|
        invariant i <= |bytes|
        invariant forall k :: 0 <= k < 64 ==> data[k] == if at <= k < at + i then bytes[k - at] else old(data[k])
      {
        data[at + i] := bytes[i];
        i := i + 1;
      }
      assert data[..] == old(data[..at]) + bytes + old(data[at + |bytes|..]);
    }

    /** MD5Transform */
    method Transform()
      requires Shaped()
      modifies buf
      ensures Current() == Compress(old(Current()), data[..])
    {
      hide Rounds, Get, Add;
      ghost var st := Current();
      var x := new bv32[16];
      var i := 0;
      while i < 16
        invariant i <= 16
        invariant Current() == st
        invariant forall k :: 0 <= k < i ==> x[k] == WordAt(data[..], k)
      {
        x[i] := Get(data[4 * i], data[4 * i + 1], data[4 * i + 2], data[4 * i + 3]);
        i := i + 1;
      }
      var words := x[..];
      ghost var block := data[..];
      assert words == Words(block);
      RoundsStart(st, words);
      var a, b, c, d := Round1(buf[0], buf[1], buf[2], buf[3], words, st);
      a, b, c, d := Round2(a, b, c, d, words, st);
      a, b, c, d := Round3(a, b, c, d, words, st);
      a, b, c, d := Round4(a, b, c, d, words, st);
      buf[0] := Add(buf[0], a);
      buf[1] := Add(buf[1], b);
      buf[2] := Add(buf[2], c);
      buf[3] := Add(buf[3], d);
      assert Current() == AddStates(st, State(a, b, c, d)) == Compress(st, block);
      assert data[..] == block;
    }

    /** The bit counter of MD5Update: `t` is what it held, `len` a 32-bit length. */
    method Count(len: nat)
      requires Counts(lo, hi, |message|) && len < BASE
      modifies `lo, `hi
      ensures Counts(lo, hi, |message| + len)
    {
      CountOn(lo, hi, |message|, len);
      var t := lo;
      lo := (t + 8 * len % BASE) % BASE;
      if lo < t {
        hi := (hi + 1) % BASE;
      }
      hi := (hi + len / 0x2000_0000) % BASE;
    }

    /** The loop over whole blocks, and the copy of what is left. */
    method Absorb(bytes: Bytes, ghost before: Bytes)
      requires Shaped() && |before| % 64 == 0 && Current() == Chain(before)
      modifies buf, data
      ensures Current() == Chain(Whole(before + bytes))
      ensures data[..|before + bytes| % 64] == Rest(before + bytes)
    {
      hide Compress, Chain, Whole, Rest;
      var rest := bytes;
      ghost var done := before;
      while |rest| >= 64
        invariant |done| % 64 == 0 && done + rest == before + bytes
        invariant Current() == Chain(done)
      {
        Copy(0, rest[..64]);
        assert data[..] == rest[..64];
        Transform();
        ChainOn(done, rest[..64]);
        MoveOn(done, rest, 64);
        done, rest := done + rest[..64], rest[64..];
      }
      Copy(0, rest);
      LastStep(done, rest);
      assert data[..|rest|] == rest;
    }

    /** The bytes that complete a block left unfinished. */
    method Complete(t: nat, bytes: Bytes)
      requires Shaped() && Current() == Chain(Whole(message)) && data[..|message| % 64] == Rest(message)
      requires t == |message| % 64 && t + |bytes| == 64
      modifies buf, data
      ensures |message + bytes| % 64 == 0 && Current() == Chain(message + bytes)
    {
      hide Compress, Chain, Whole, Rest;
      Copy(t, bytes);
      assert data[..] == Rest(message) + bytes;
      Transform();
      FillStep(message, bytes);
    }

    /** MD5Update: for any bytes, in any state, the context becomes that of the longer message. */
    method Update(bytes: Bytes)
      requires Valid() && |bytes| < BASE
      modifies this, buf, data
      ensures Valid() && message == old(message) + bytes
    {
      hide Compress, Chain, Whole, Rest, Counts;
      CountTail(lo, hi, |message|);
      var t := lo / 8 % 64;
      Count(|bytes|);
      if t != 0 {
        if |bytes| < 64 - t {
          Copy(t, bytes);
          ShortStep(message, bytes);
          message := message + bytes;
          assert data[..|message| % 64] == Rest(message);
          return;
        }
        Complete(t, bytes[..64 - t]);
        MoveOn(message, bytes, 64 - t);
        Absorb(bytes[64 - t..], message + bytes[..64 - t]);
      } else {
        LastStep(message, []);
        assert message + [] == message;
        Absorb(bytes, message);
      }
      message := message + bytes;
    }

    /** The bytes 0x80, 0, ... of section 3.1, up to 56 modulo 64. */
    method PadBlock(t: nat)
      requires Valid() && t == |message| % 64
      modifies buf, data
      ensures Current() == Chain(Whole(PadTo56(message)))
      ensures data[..56] == Rest(PadTo56(message))
    {
      hide Compress, Chain, Whole, Rest, Counts, ZerosNeeded, PadTo56;
      PadSplit(message);
      data[t] := 0x80;
      var count := 64 - 1 - t;
      if count < 8 {
        Fill(64 - count, 64);
        assert data[..] == Rest(message) + [0x80] + Zeros(63 - t);
        Transform();
        ChainOn(Whole(message), Rest(message) + [0x80] + Zeros(63 - t));
        Fill(0, 56);
        assert data[..56] == Zeros(56);
      } else {
        Fill(64 - count, 56);
        assert data[..56] == Rest(message) + [0x80] + Zeros(55 - t);
      }
    }

    /** The bit count goes behind the padding, and the last block is done. */
    method FinishBlock(ghost m: Bytes)
      requires Shaped() && Counts(lo, hi, |m|)
      requires Current() == Chain(Whole(PadTo56(m))) && data[..56] == Rest(PadTo56(m))
      modifies buf, data
      ensures Current() == Chain(Pad(m))
    {
      hide Compress, Chain, Whole, Rest, Put, PadTo56, Pad, AsWord;
      ghost var head := data[..56];
      Copy(56, Put(AsWord(lo)));
      assert data[..60] == head + Put(AsWord(lo));
      Copy(60, Put(AsWord(hi)));
      assert data[..] == head + LengthWords(m);
      Transform();
      PadEnd(m);
    }

    /** memset(ctx, 0, sizeof(*ctx)) */
    method Wipe()
      requires Shaped()
      modifies this, buf, data
      ensures lo == hi == 0 && buf[..] == [0, 0, 0, 0] && data[..] == Zeros(64)
    {
      buf[0], buf[1], buf[2], buf[3] := 0, 0, 0, 0;
      lo, hi := 0, 0;
      Fill(0, 64);
    }

    /** MD5Final: the digest of everything given so far; the context is wiped. */
    method Final() returns (digest: Bytes)
      requires Valid()
      modifies this, buf, data
      ensures digest == Digest(old(message))
      ensures lo == hi == 0 && buf[..] == [0, 0, 0, 0] && data[..] == Zeros(64)
    {
      hide Compress, Chain, Whole, Rest, Put, Pad, PadTo56, Zeros;
      CountTail(lo, hi, |message|);
      PadBlock(lo / 8 % 64);
      FinishBlock(message);
      digest := Put(buf[0]) + Put(buf[1]) + Put(buf[2]) + Put(buf[3]);
      Wipe();
    }
  }

  lemma {:induction false} RoundsStart(st: State, x: seq<bv32>)
    requires |x| == 16
    ensures Rounds(st, x, 0) == st
  {
  }

  /** Bytes that do not fill the block. */
  lemma {:induction false} ShortStep(m: Bytes, more: Bytes)
    requires |m| % 64 + |more| < 64
    ensures Whole(m + more) == Whole(m) && Rest(m + more) == Rest(m) + more
  {
  }

  /** Bytes that fill it exactly. */
  lemma {:induction false} FillStep(m: Bytes, more: Bytes)
    requires |m| % 64 + |more| == 64
    ensures |m + more| % 64 == 0
    ensures Chain(m + more) == Compress(Chain(Whole(m)), Rest(m) + more)
  {
    hide Chain, Compress;
    assert m + more == Whole(m) + (Rest(m) + more);
    ChainOn(Whole(m), Rest(m) + more);
  }

  /** What is left once the whole blocks are done. */
  lemma {:induction false} LastStep(done: Bytes, rest: Bytes)
    requires |done| % 64 == 0 && |rest| < 64
    ensures Whole(done + rest) == done && Rest(done + rest) == rest
  {
  }

  lemma {:induction false} MoveOn(done: Bytes, rest: Bytes, n: nat)
    requires n <= |rest|
    ensures done + rest[..n] + rest[n..] == done + rest
  {
  }

  /** Padding as one block or two. */
  lemma {:induction false} PadSplit(m: Bytes)
    ensures var t, p := |m| % 64, PadTo56(m);
            if t < 56 then
              Whole(p) == Whole(m) && Rest(p) == Rest(m) + [0x80] + Zeros(55 - t)
            else
              Whole(p) == Whole(m) + (Rest(m) + [0x80] + Zeros(63 - t)) && Rest(p) == Zeros(56)
  {
  }

  lemma {:induction false} PadEnd(m: Bytes)
    ensures Chain(Pad(m)) == Compress(Chain(Whole(PadTo56(m))), Rest(PadTo56(m)) + LengthWords(m))
  {
    hide Chain, Compress;
    var p := PadTo56(m);
    assert Pad(m) == Whole(p) + (Rest(p) + LengthWords(m));
    ChainOn(Whole(p), Rest(p) + LengthWords(m));
  }

  function Flatten(parts: seq<Bytes>): Bytes {
    if parts == [] then [] else Flatten(parts[..|parts| - 1]) + parts[|parts| - 1]
  }

  /** Main result: any splitting of a message into updates gives the digest of the whole. */
  method HashParts(parts: seq<Bytes>) returns (digest: Bytes)
    requires forall part :: part in parts ==> |part| < BASE
    ensures digest == Digest(Flatten(parts))
  {
    hide Digest, Compress, Chain, Whole, Rest, Counts, Zeros;
    var context := new Context();
    context.Init();
    var i := 0;
    while i < |parts|
      invariant i <= |parts| && context.Valid() && context.message == Flatten(parts[..i])
    {
      context.Update(parts[i]);
      assert parts[..i + 1][..i] == parts[..i];
      i := i + 1;
    }
    assert parts[..i] == parts;
    digest := context.Final();
  }
}
