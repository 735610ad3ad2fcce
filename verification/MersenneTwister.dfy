/**
 The 64-bit Mersenne Twister of src/random.c: block regeneration in place, refining the
 infinite sequence of the recurrence.
 */
module MersenneTwister {
  import opened MersenneTemper

  const NN: nat := 312
  const MM: nat := 156
  const MATRIX_A: bv64 := 0xB5026F5AA96619E9
  const UM: bv64 := 0xFFFFFFFF80000000
  const LM: bv64 := 0x7FFFFFFF

  /** mag01 */
  function Mag(x: bv64): bv64 {
    if x & 1 == 1 then MATRIX_A else 0
  }

  function Upper(x: bv64): bv64 { x & UM }

  /** The upper 33 bits of one word with the lower 31 of the next. */
  function Join(far: bv64, next: bv64): bv64 { Upper(far) | (next & LM) }

  /** The joined word shifted, with MATRIX_A added when it is odd. */
  function Turn(x: bv64): bv64 { Xor(x >> 1, Mag(x)) }

  /** One word of the recurrence from the words 312, 311 and 156 places back. */
  function Twist(far: bv64, next: bv64, mid: bv64): bv64 {
    Xor(Turn(Join(far, next)), mid)
  }

  /** The infinite sequence that starts with the 312 words of `seed`. */
  function Word(seed: seq<bv64>, n: nat): bv64
    requires |seed| == NN
  {
    if n < NN then seed[n]
    else Twist(Word(seed, n - NN), Word(seed, n - NN + 1), Word(seed, n - NN + MM))
  }

  /** The recurrence at one place, without unfolding the sequence any further. */
  lemma {:induction false} WordStep(seed: seq<bv64>, n: nat)
    requires |seed| == NN
    ensures Word(seed, n + NN) == Twist(Word(seed, n), Word(seed, n + 1), Word(seed, n + MM))
  {
  }

  // ----- seeding

  /** init_genrand64 for word `i`, as in the loop. */
  function SeedWord(before: bv64, i: nat): bv64
    requires i < NN
  {
    6364136223846793005 * (before ^ (before >> 62)) + i as bv64
  }

  function SeedWords(seed: bv64, n: nat): (r: seq<bv64>)
    requires 0 < n <= NN
    ensures |r| == n && r[0] == seed
  {
    hide SeedWord;
    if n == 1 then [seed]
    else
      var r := SeedWords(seed, n - 1);
      r + [SeedWord(r[n - 2], n - 1)]
  }

  /** Each word is made from the one before it. */
  lemma {:induction false} SeedWordsAt(seed: bv64, n: nat, i: nat)
    requires 0 < i < n <= NN
    ensures SeedWords(seed, n)[i] == SeedWord(SeedWords(seed, n)[i - 1], i)
  {
    hide SeedWord;
    if i < n - 1 {
      SeedWordsAt(seed, n - 1, i);
    }
  }

  lemma {:induction false} SeedFirst(seed: bv64)
    ensures SeedWords(seed, 1) == [seed]
  {
  }

  lemma {:induction false} SeedOn(seed: bv64, n: nat)
    requires 0 < n < NN
    ensures SeedWords(seed, n + 1) == SeedWords(seed, n) + [SeedWord(SeedWords(seed, n)[n - 1], n)]
  {
    hide SeedWord;
  }

  /** The state of init_by_array64: the words and the two indices. */
  datatype Mixer = Mixer(words: seq<bv64>, i: nat, j: nat)

  predicate MixerOk(m: Mixer, keys: nat) {
    |m.words| == NN && 1 <= m.i < NN && m.j < keys
  }

  /** A multiple of a word, folded onto itself. */
  function Product(before: bv64, factor: bv64): bv64 { (before ^ (before >> 62)) * factor }

  function Scramble(word: bv64, before: bv64, factor: bv64): bv64 { word ^ Product(before, factor) }

  /** The new word of the first loop, from the key word in turn and its index. */
  function KeyWord(word: bv64, before: bv64, key: bv64, j: nat): bv64
    requires j < 0x1_0000_0000
  {
    Scramble(word, before, 3935559000370003845) + key + j as bv64
  }

  /** The new word of the second loop. */
  function IndexWord(word: bv64, before: bv64, i: nat): bv64
    requires i < NN
  {
    Scramble(word, before, 2862933555777941757) - i as bv64
  }

  /** Going on to the next word, wrapping from the last to the first. */
  function Advance(words: seq<bv64>, i: nat): (seq<bv64>, nat)
    requires |words| == NN && 1 <= i < NN
  {
    if i + 1 >= NN then (words[0 := words[NN - 1]], 1) else (words, i + 1)
  }

  function MixKey(m: Mixer, key: seq<bv64>): (r: Mixer)
    requires 0 < |key| < 0x1_0000_0000 && MixerOk(m, |key|)
    ensures MixerOk(r, |key|)
  {
    var (words, i) := Advance(m.words[m.i := KeyWord(m.words[m.i], m.words[m.i - 1], key[m.j], m.j)], m.i);
    Mixer(words, i, if m.j + 1 >= |key| then 0 else m.j + 1)
  }

  function MixKeys(m: Mixer, key: seq<bv64>, rounds: nat): (r: Mixer)
    requires 0 < |key| < 0x1_0000_0000 && MixerOk(m, |key|)
    ensures MixerOk(r, |key|)
  {
    if rounds == 0 then m else MixKey(MixKeys(m, key, rounds - 1), key)
  }

  function MixIndex(m: Mixer): (r: Mixer)
    requires |m.words| == NN && 1 <= m.i < NN
    ensures |r.words| == NN && 1 <= r.i < NN
  {
    var (words, i) := Advance(m.words[m.i := IndexWord(m.words[m.i], m.words[m.i - 1], m.i)], m.i);
    Mixer(words, i, m.j)
  }

  function MixIndexes(m: Mixer, rounds: nat): (r: Mixer)
    requires |m.words| == NN && 1 <= m.i < NN
    ensures |r.words| == NN && 1 <= r.i < NN
  {
    if rounds == 0 then m else MixIndex(MixIndexes(m, rounds - 1))
  }

  /** init_by_array64 */
  function ArrayWords(key: seq<bv64>): (r: seq<bv64>)
    requires 0 < |key| < 0x1_0000_0000
    ensures |r| == NN
  {
    var rounds := if NN > |key| then NN else |key|;
    var m := MixKeys(Mixer(SeedWords(19650218, NN), 1, 0), key, rounds);
    MixIndexes(m, NN - 1).words[0 := 1 << 63]
  }

  // ----- the generator

  class Generator {
    const mt: array<bv64>
    var mti: nat

    /** History: the words the generator was seeded with, and how many outputs it has given. */
    ghost var seed: seq<bv64>
    ghost var given: nat

    /** The block in `mt` is one window of the sequence, and `mti` the place in it. */
    ghost predicate Valid()
      reads this, mt
    {
      && mt.Length == NN && |seed| == NN
      && (mti == NN + 1 ==> given == 0 && seed == SeedWords(5489, NN))
      && (mti <= NN ==>
            given + NN >= mti && Window(mt[..], seed, given + NN - mti))
      && mti <= NN + 1
    }

    /** Static initialisation: no seed yet. */
    constructor ()
      ensures Valid() && fresh(mt) && given == 0 && seed == SeedWords(5489, NN)
    {
      mt := new bv64[NN](_ => 0);
      mti := NN + 1;
      seed := SeedWords(5489, NN);
      given := 0;
    }

    /** init_genrand64 */
    method Init(seed0: bv64)
      modifies this, mt
      requires mt.Length == NN
      ensures Valid() && given == 0 && seed == SeedWords(seed0, NN) && mti == NN && mt[..] == seed
    {
      hide SeedWord, SeedWords, Word;
      mt[0] := seed0;
      mti := 1;
      SeedFirst(seed0);
      while mti < NN
        invariant 1 <= mti <= NN
        invariant mt[..mti] == SeedWords(seed0, mti)
      {
        SeedOn(seed0, mti);
        mt[mti] := SeedWord(mt[mti - 1], mti);
        assert mt[..mti + 1] == mt[..mti] + [mt[mti]];
        mti := mti + 1;
      }
      assert mt[..] == mt[..NN];
      seed, given := SeedWords(seed0, NN), 0;
      StartWindow(seed);
    }

    /** Walking on, as at the end of both loops of init_by_array64. */
    method StepIndex(i: nat) returns (i': nat)
      requires mt.Length == NN && 1 <= i < NN
      modifies mt
      ensures (mt[..], i') == Advance(old(mt[..]), i)
    {
      i' := i + 1;
      if i' >= NN {
        mt[0] := mt[NN - 1];
        i' := 1;
      }
    }

    /** One round of the first loop of init_by_array64. */
    method MixKeyRound(key: seq<bv64>, i: nat, j: nat) returns (i': nat, j': nat)
      requires 0 < |key| < 0x1_0000_0000 && MixerOk(Mixer(mt[..], i, j), |key|)
      modifies mt
      ensures Mixer(mt[..], i', j') == MixKey(Mixer(old(mt[..]), i, j), key)
    {
      hide KeyWord, Advance;
      mt[i] := KeyWord(mt[i], mt[i - 1], key[j], j);
      i' := StepIndex(i);
      j' := j + 1;
      if j' >= |key| {
        j' := 0;
      }
    }

    /** One round of the second loop. */
    method MixIndexRound(i: nat, ghost j: nat) returns (i': nat)
      requires mt.Length == NN && 1 <= i < NN
      modifies mt
      ensures Mixer(mt[..], i', j) == MixIndex(Mixer(old(mt[..]), i, j))
    {
      hide IndexWord, Advance;
      mt[i] := IndexWord(mt[i], mt[i - 1], i);
      i' := StepIndex(i);
    }

    /** The first loop. */
    method MixByKey(key: seq<bv64>) returns (i: nat, j: nat)
      requires mt.Length == NN && 0 < |key| < 0x1_0000_0000
      modifies mt
      ensures MixerOk(Mixer(mt[..], i, j), |key|)
      ensures Mixer(mt[..], i, j) == MixKeys(Mixer(old(mt[..]), 1, 0), key, if NN > |key| then NN else |key|)
    {
      hide MixKey;
      i, j := 1, 0;
      var k := if NN > |key| then NN else |key|;
      ghost var rounds, start := k, Mixer(mt[..], 1, 0);
      while k > 0
        invariant 0 <= k <= rounds
        invariant MixerOk(Mixer(mt[..], i, j), |key|)
        invariant Mixer(mt[..], i, j) == MixKeys(start, key, rounds - k)
      {
        i, j := MixKeyRound(key, i, j);
        k := k - 1;
      }
    }

    /** The second loop. */
    method MixByIndex(i0: nat, ghost j: nat) returns (i: nat)
      requires mt.Length == NN && 1 <= i0 < NN
      modifies mt
      ensures Mixer(mt[..], i, j) == MixIndexes(Mixer(old(mt[..]), i0, j), NN - 1)
    {
      hide MixIndex;
      i := i0;
      ghost var mixed := Mixer(mt[..], i, j);
      var k := NN - 1;
      while k > 0
        invariant 0 <= k <= NN - 1 && 1 <= i < NN
        invariant Mixer(mt[..], i, j) == MixIndexes(mixed, NN - 1 - k)
      {
        i := MixIndexRound(i, j);
        k := k - 1;
      }
    }

    /** init_by_array64 */
    method InitByArray(key: seq<bv64>)
      requires mt.Length == NN && 0 < |key| < 0x1_0000_0000
      modifies this, mt
      ensures Valid() && given == 0 && seed == ArrayWords(key) && mti == NN && mt[..] == seed
    {
      hide Word, Window, MixKeys, MixIndexes, SeedWords;
      Init(19650218);
      var i, j := MixByKey(key);
      i := MixByIndex(i, j);
      mt[0] := 1 << 63;
      seed, given := mt[..], 0;
      assert seed == ArrayWords(key);
      StartWindow(seed);
    }

    /** The three phases that generate 312 words at one time. */
    method Regenerate()
      requires Valid() && mti == NN
      modifies this, mt
      ensures Valid() && mti == 0 && given == old(given) && seed == old(seed)
    {
      hide Word, Twist, Window, SeedWords;
      ghost var base := given + NN - mti;
      StartMoving(mt[..], seed, base);
      var i := 0;
      while i < NN - MM
        invariant seed == old(seed) && given == old(given) && mti == NN
        invariant 0 <= i <= NN - MM && Moving(mt[..], seed, base, i)
      {
        MovingStep(mt[..], seed, base, i);
        mt[i] := Twist(mt[i], mt[i + 1], mt[i + MM]);
        i := i + 1;
      }
      while i < NN - 1
        invariant seed == old(seed) && given == old(given) && mti == NN
        invariant NN - MM <= i <= NN - 1 && Moving(mt[..], seed, base, i)
      {
        MovingStep(mt[..], seed, base, i);
        mt[i] := Twist(mt[i], mt[i + 1], mt[i + MM - NN]);
        i := i + 1;
      }
      MovingStep(mt[..], seed, base, NN - 1);
      mt[NN - 1] := Twist(mt[NN - 1], mt[0], mt[MM - 1]);
      MovedWindow(mt[..], seed, base);
      mti := 0;
    }

    /**
     genrand64_int64: output `n` is the tempered word 312 + n of the sequence, for every seed
     and every n.
     */
    method Next() returns (x: bv64)
      requires Valid()
      modifies this, mt
      ensures Valid() && given == old(given) + 1 && seed == old(seed)
      ensures x == Temper(Word(seed, NN + old(given)))
    {
      hide Word, Temper, SeedWords;
      if mti >= NN {
        if mti == NN + 1 {
          Init(5489);
        }
        Regenerate();
      }
      WindowAt(mt[..], seed, given + NN - mti, mti);
      x := Temper(mt[mti]);
      mti := mti + 1;
      given := given + 1;
    }

    /** A whole run of outputs from any seeding. */
    method Generate(n: nat) returns (outputs: seq<bv64>)
      requires Valid()
      modifies this, mt
      ensures Valid() && given == old(given) + n && seed == old(seed) && |outputs| == n
      ensures forall k :: 0 <= k < n ==> outputs[k] == Temper(Word(seed, NN + old(given) + k))
    {
      hide Word, Temper, Window, SeedWords;
      outputs := [];
      while |outputs| < n
        invariant Valid() && |outputs| <= n && given == old(given) + |outputs| && seed == old(seed)
        invariant forall k :: 0 <= k < |outputs| ==> outputs[k] == Temper(Word(seed, NN + old(given) + k))
      {
        var x := Next();
        outputs := outputs + [x];
      }
    }
  }

  lemma {:induction false} StartWindow(seed: seq<bv64>)
    requires |seed| == NN
    ensures Window(seed, seed, 0)
  {
  }

  lemma {:induction false} StartMoving(block: seq<bv64>, seed: seq<bv64>, base: nat)
    requires |seed| == NN && Window(block, seed, base)
    ensures Moving(block, seed, base, 0)
  {
    hide Word;
  }

  lemma {:induction false} MovedWindow(block: seq<bv64>, seed: seq<bv64>, base: nat)
    requires |seed| == NN && Moving(block, seed, base, NN)
    ensures Window(block, seed, base + NN)
  {
    hide Word;
  }

  lemma {:induction false} WindowAt(block: seq<bv64>, seed: seq<bv64>, base: nat, k: nat)
    requires |seed| == NN && Window(block, seed, base) && k < NN
    ensures block[k] == Word(seed, base + k)
  {
    hide Word;
  }

  /** The block while it is regenerated: the first `i` words are already those of the next block. */
  ghost predicate Moving(block: seq<bv64>, seed: seq<bv64>, base: nat, i: nat)
    requires |seed| == NN
  {
    && |block| == NN && i <= NN
    && (forall k :: 0 <= k < i ==> block[k] == Word(seed, base + NN + k))
    && (forall k :: i <= k < NN ==> block[k] == Word(seed, base + k))
  }

  /** One place of the in-place regeneration, in any of its three phases. */
  lemma {:induction false} MovingStep(block: seq<bv64>, seed: seq<bv64>, base: nat, i: nat)
    requires |seed| == NN && i < NN && Moving(block, seed, base, i)
    ensures var next := if i + 1 < NN then block[i + 1] else block[0];
            var mid := if i < NN - MM then block[i + MM] else block[i + MM - NN];
            Moving(block[i := Twist(block[i], next, mid)], seed, base, i + 1)
  {
    hide Word, Twist;
    WordStep(seed, base + i);
  }

  /** `block` holds the words from `base` on. */
  ghost predicate Window(block: seq<bv64>, seed: seq<bv64>, base: nat)
    requires |seed| == NN
  {
    |block| == NN && forall k :: 0 <= k < NN ==> block[k] == Word(seed, base + k)
  }
}
