/**
 init_by_array64 of src/random.c tells keys apart: the words that its two loops leave determine
 the key that went in.
 */
module MersenneSeeding {
  import opened MersenneTwister

  // ----- one word of a round can be undone

  const KEY_FACTOR: bv64 := 3935559000370003845
  const INDEX_FACTOR: bv64 := 2862933555777941757

  function KeyOf(x: bv64, a: bv64, j: bv64): bv64 { x - a - j }
  function Raised(x: bv64, i: bv64): bv64 { x + i }
  function Unmasked(x: bv64, f: bv64): bv64 { x ^ f }

  lemma {:induction false} KeyOfSum(a: bv64, key: bv64, j: bv64)
    ensures forall x {:trigger KeyOf(x, a, j)} :: x == a + key + j ==> KeyOf(x, a, j) == key
  {
  }

  lemma {:induction false} RaisedDifference(a: bv64, i: bv64)
    ensures forall x {:trigger Raised(x, i)} :: x == a - i ==> Raised(x, i) == a
  {
  }

  lemma {:induction false} UnmaskedMask(word: bv64, f: bv64)
    ensures forall x {:trigger Unmasked(x, f)} :: x == word ^ f ==> Unmasked(x, f) == word
  {
  }

  lemma {:induction false} KeyWordIs(word: bv64, before: bv64, key: bv64, j: nat)
    requires j < 0x1_0000_0000
    ensures KeyWord(word, before, key, j) == Scramble(word, before, KEY_FACTOR) + key + j as bv64
  {
    hide Scramble;
  }

  lemma {:induction false} IndexWordIs(word: bv64, before: bv64, i: nat)
    requires i < NN
    ensures IndexWord(word, before, i) == Scramble(word, before, INDEX_FACTOR) - i as bv64
  {
    hide Scramble;
  }

  lemma {:induction false} ScrambleIs(word: bv64, before: bv64, factor: bv64)
    ensures Scramble(word, before, factor) == word ^ Product(before, factor)
  {
    hide Product;
  }

  lemma {:induction false} ScrambleBack(word: bv64, before: bv64, factor: bv64)
    ensures Unmasked(Scramble(word, before, factor), Product(before, factor)) == word
  {
    ScrambleIs(word, before, factor);
    hide Scramble, Unmasked, Product;
    UnmaskedMask(word, Product(before, factor));
  }

  lemma {:induction false} KeyWordBack(word: bv64, before: bv64, key: bv64, j: nat)
    requires j < 0x1_0000_0000
    ensures KeyOf(KeyWord(word, before, key, j), Scramble(word, before, KEY_FACTOR), j as bv64) == key
  {
    KeyWordIs(word, before, key, j);
    hide Scramble, KeyOf, KeyWord;
    KeyOfSum(Scramble(word, before, KEY_FACTOR), key, j as bv64);
  }

  lemma {:induction false} IndexWordBack(word: bv64, before: bv64, i: nat)
    requires i < NN
    ensures Raised(IndexWord(word, before, i), i as bv64) == Scramble(word, before, INDEX_FACTOR)
  {
    IndexWordIs(word, before, i);
    hide Scramble, Raised, IndexWord;
    RaisedDifference(Scramble(word, before, INDEX_FACTOR), i as bv64);
  }

  /** A round of the first loop keeps apart what differs in the key word. */
  lemma {:induction false} KeyWordTells(word: bv64, before: bv64, key: bv64, key2: bv64, j: nat)
    requires j < 0x1_0000_0000 && KeyWord(word, before, key, j) == KeyWord(word, before, key2, j)
    ensures key == key2
  {
    hide Scramble, KeyOf, KeyWord;
    KeyWordBack(word, before, key, j);
    KeyWordBack(word, before, key2, j);
  }

  /** A round of the second loop keeps apart what differs in the word it replaces. */
  lemma {:induction false} IndexWordTells(word: bv64, word2: bv64, before: bv64, i: nat)
    requires i < NN && IndexWord(word, before, i) == IndexWord(word2, before, i)
    ensures word == word2
  {
    hide Scramble, Product, Unmasked, Raised, IndexWord;
    IndexWordBack(word, before, i);
    IndexWordBack(word2, before, i);
    ScrambleBack(word, before, INDEX_FACTOR);
    ScrambleBack(word2, before, INDEX_FACTOR);
  }

  // ----- the words that the loops leave

  /** `m` after `r` rounds of the first loop from `start`, as far as the word numbers 3 and up are concerned. */
  predicate Keyed(m: Mixer, start: seq<bv64>, key: seq<bv64>, r: nat)
    requires 0 < |key| < 0x1_0000_0000 && |m.words| == |start| == NN
  {
    && r <= NN && m.i == (if r < NN - 1 then r + 1 else r - (NN - 2)) && m.j == r % |key|
    && (forall k :: 3 <= k < NN && k <= r ==>
          m.words[k] == KeyWord(start[k], m.words[k - 1], key[(k - 1) % |key|], (k - 1) % |key|))
    && (forall k :: r < k < NN ==> m.words[k] == start[k])
  }

  lemma {:induction false} RemainderIs(a: nat, n: nat, q: nat, s: nat)
    requires a == n * q + s && s < n
    ensures a % n == s
  {
    var d := a / n - q;
    assert n * d == n * (a / n) - n * q == s - a % n;
    assert d >= 1 ==> n * d >= n;
    assert d <= -1 ==> n * d + n <= 0;
  }

  lemma {:induction false} NextRemainder(r: nat, n: nat)
    requires n > 0
    ensures (r + 1) % n == if r % n + 1 >= n then 0 else r % n + 1
  {
    var q, s := r / n, r % n;
    assert r == n * q + s;
    if s + 1 >= n {
      assert n * (q + 1) == n * q + n;
      RemainderIs(r + 1, n, q + 1, 0);
    } else {
      RemainderIs(r + 1, n, q, s + 1);
    }
  }

  /** What one round does to any word but number 0. */
  lemma {:induction false} MixKeyAt(m: Mixer, key: seq<bv64>, k: nat)
    requires 0 < |key| < 0x1_0000_0000 && MixerOk(m, |key|) && 1 <= k < NN
    ensures MixKey(m, key).words[k]
         == if k == m.i then KeyWord(m.words[k], m.words[k - 1], key[m.j], m.j) else m.words[k]
    ensures MixKey(m, key).i == (if m.i + 1 < NN then m.i + 1 else 1)
    ensures MixKey(m, key).j == (if m.j + 1 < |key| then m.j + 1 else 0)
  {
    hide KeyWord;
  }

  lemma {:induction false} KeyRound(m: Mixer, start: seq<bv64>, key: seq<bv64>, r: nat)
    requires 0 < |key| < 0x1_0000_0000 && MixerOk(m, |key|) && |start| == NN && r < NN && Keyed(m, start, key, r)
    ensures Keyed(MixKey(m, key), start, key, r + 1)
  {
    hide KeyWord, MixKey;
    NextRemainder(r, |key|);
    MixKeyAt(m, key, 1);
    forall k | 3 <= k < NN && k <= r + 1
      ensures MixKey(m, key).words[k]
           == KeyWord(start[k], MixKey(m, key).words[k - 1], key[(k - 1) % |key|], (k - 1) % |key|)
    {
      MixKeyAt(m, key, k);
      MixKeyAt(m, key, k - 1);
    }
    forall k | r + 1 < k < NN
      ensures MixKey(m, key).words[k] == start[k]
    {
      MixKeyAt(m, key, k);
    }
  }

  lemma {:induction false} KeyedStart(start: seq<bv64>, key: seq<bv64>)
    requires 0 < |key| < 0x1_0000_0000 && |start| == NN
    ensures Keyed(Mixer(start, 1, 0), start, key, 0)
  {
    hide KeyWord;
  }

  lemma {:induction false} KeyRounds(start: seq<bv64>, key: seq<bv64>, r: nat)
    requires 0 < |key| < 0x1_0000_0000 && |start| == NN && r <= NN
    ensures Keyed(MixKeys(Mixer(start, 1, 0), key, r), start, key, r)
  {
    hide KeyWord, MixKey, Keyed;
    if r == 0 {
      KeyedStart(start, key);
    } else {
      KeyRounds(start, key, r - 1);
      KeyRound(MixKeys(Mixer(start, 1, 0), key, r - 1), start, key, r - 1);
    }
  }

  /** `m` after `r` rounds of the second loop from the words `start` and place 2. */
  predicate Indexed(m: Mixer, start: seq<bv64>, r: nat)
    requires |m.words| == |start| == NN
  {
    && r < NN && m.i == (if r < NN - 2 then r + 2 else r - (NN - 3))
    && (forall k :: 3 <= k < NN && k <= r + 1 ==> m.words[k] == IndexWord(start[k], m.words[k - 1], k))
    && (forall k :: r + 1 < k < NN ==> m.words[k] == start[k])
    && (r > 0 ==> m.words[2] == IndexWord(start[2], start[1], 2))
    && m.words[1] == (if r < NN - 1 then start[1] else IndexWord(start[1], m.words[NN - 1], 1))
    && (r >= NN - 2 ==> m.words[0] == m.words[NN - 1])
  }

  lemma {:induction false} IndexRound(m: Mixer, start: seq<bv64>, r: nat)
    requires |m.words| == |start| == NN && 1 <= m.i < NN && r < NN - 1 && Indexed(m, start, r)
    ensures Indexed(MixIndex(m), start, r + 1)
  {
    hide IndexWord;
  }

  lemma {:induction false} IndexRounds(m: Mixer, r: nat)
    requires |m.words| == NN && m.i == 2 && r < NN
    ensures Indexed(MixIndexes(m, r), m.words, r)
  {
    hide IndexWord, MixIndex;
    if r > 0 {
      IndexRounds(m, r - 1);
      IndexRound(MixIndexes(m, r - 1), m.words, r - 1);
    }
  }

  // ----- back from the words to the key

  /** The second loop keeps apart all words but the first. */
  lemma {:induction false} IndexedApart(m: Mixer, m2: Mixer, start: seq<bv64>, start2: seq<bv64>, k: nat)
    requires |m.words| == |m2.words| == |start| == |start2| == NN && 1 <= k < NN
    requires Indexed(m, start, NN - 1) && Indexed(m2, start2, NN - 1)
    requires forall q :: 1 <= q < NN ==> m.words[q] == m2.words[q]
    ensures start[k] == start2[k]
  {
    hide IndexWord;
    if k == 1 {
      IndexWordTells(start[1], start2[1], m.words[NN - 1], 1);
    } else if k == 2 {
      IndexedApart(m, m2, start, start2, 1);
      IndexWordTells(start[2], start2[2], start[1], 2);
    } else {
      IndexWordTells(start[k], start2[k], m.words[k - 1], k);
    }
  }

  /** Some round that matters takes word `q` of a key. */
  lemma {:induction false} SomeRound(q: nat, n: nat) returns (k: nat)
    requires q < n <= NN - 3
    ensures 3 <= k < NN && (k - 1) % n == q
  {
    if q >= 2 {
      k := q + 1;
      RemainderIs(q, n, 0, q);
    } else if n == 1 {
      k := 3;
      RemainderIs(2, n, 2, 0);
    } else {
      k := q + n + 1;
      RemainderIs(q + n, n, 1, q);
    }
  }

  /** The first loop keeps apart the words of keys of one length. */
  lemma {:induction false} KeyedApart(m: Mixer, m2: Mixer, start: seq<bv64>, key: seq<bv64>, key2: seq<bv64>, q: nat)
    requires q < |key| == |key2| <= NN - 3 && |m.words| == |m2.words| == |start| == NN
    requires Keyed(m, start, key, NN) && Keyed(m2, start, key2, NN)
    requires forall k :: 1 <= k < NN ==> m.words[k] == m2.words[k]
    ensures key[q] == key2[q]
  {
    hide KeyWord;
    var k := SomeRound(q, |key|);
    KeyWordTells(start[k], m.words[k - 1], key[q], key2[q], q);
  }

  /**
   Main result: two different keys of one length, up to 309 words, seed the generator with
   different words.
   */
  lemma {:induction false} KeysAreToldApart(key: seq<bv64>, key2: seq<bv64>)
    requires 0 < |key| == |key2| <= NN - 3
    ensures ArrayWords(key) == ArrayWords(key2) <==> key == key2
  {
    hide Keyed, Indexed, MixKeys, MixIndexes, SeedWords;
    if ArrayWords(key) == ArrayWords(key2) {
      var start := SeedWords(19650218, NN);
      KeyRounds(start, key, NN);
      KeyRounds(start, key2, NN);
      var m, m2 := MixKeys(Mixer(start, 1, 0), key, NN), MixKeys(Mixer(start, 1, 0), key2, NN);
      PlaceTwo(m, start, key);
      PlaceTwo(m2, start, key2);
      IndexRounds(m, NN - 1);
      IndexRounds(m2, NN - 1);
      var r, r2 := MixIndexes(m, NN - 1), MixIndexes(m2, NN - 1);
      assert ArrayWords(key) == r.words[0 := 1 << 63] && ArrayWords(key2) == r2.words[0 := 1 << 63];
      OnlyFirst(r.words, r2.words, 1 << 63);
      forall k | 1 <= k < NN
        ensures m.words[k] == m2.words[k]
      {
        IndexedApart(r, r2, m.words, m2.words, k);
      }
      forall q | 0 <= q < |key|
        ensures key[q] == key2[q]
      {
        KeyedApart(m, m2, start, key, key2, q);
      }
    }
  }

  lemma {:induction false} PlaceTwo(m: Mixer, start: seq<bv64>, key: seq<bv64>)
    requires 0 < |key| < 0x1_0000_0000 && |m.words| == |start| == NN && Keyed(m, start, key, NN)
    ensures m.i == 2
  {
    hide KeyWord;
  }

  lemma {:induction false} OnlyFirst(a: seq<bv64>, b: seq<bv64>, first: bv64)
    requires |a| == |b| == NN && a[0 := first] == b[0 := first]
    ensures forall k :: 1 <= k < NN ==> a[k] == b[k]
  {
    forall k | 1 <= k < NN
      ensures a[k] == b[k]
    {
      assert a[0 := first][k] == b[0 := first][k];
    }
  }
}
