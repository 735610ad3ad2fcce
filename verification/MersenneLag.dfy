/**
 init_by_array64 without its indices: the two loops that walk round and round the array compute one
 sequence in which each word is made from the word before it and the one 311 places back.
 */
module MersenneLag {
  import opened MersenneTwister
  import MersenneSeeding

  const LAG: nat := NN - 1

  /** Where word `k` of the sequence is kept: places 1 to 311, again and again. */
  function Place(k: nat): (p: nat)
    requires k > 0
    ensures 0 < p <= LAG
  {
    if k <= LAG then k else Place(k - LAG)
  }

  /** How many words the first loop makes: one for each word of the array or of the key, whichever are more. */
  function Rounds(key: seq<bv64>): nat {
    if |key| < NN then NN else |key|
  }

  /** The sequence: the seed, the words of the first loop, and those of the second. */
  function Lagged(key: seq<bv64>, k: nat): bv64
    requires 0 < |key| < 0x1_0000_0000
    decreases k, 0
  {
    if k < NN then SeedWords(19650218, NN)[k]
    else if k < NN + Rounds(key) then KeyWord(Lagged(key, k - LAG), Before(key, k), key[(k - NN) % |key|], (k - NN) % |key|)
    else IndexWord(Lagged(key, k - LAG), Before(key, k), Place(k))
  }

  /** The word before word `k`; the loops start behind word 0. */
  function Before(key: seq<bv64>, k: nat): bv64
    requires 0 < |key| < 0x1_0000_0000 && k >= NN
    decreases k, -1
  {
    if k == NN then SeedWords(19650218, NN)[0] else Lagged(key, k - 1)
  }

  lemma {:induction false} PlaceNext(k: nat)
    requires k > 0
    ensures Place(k + 1) == if Place(k) == LAG then 1 else Place(k) + 1
  {
    if k > LAG {
      PlaceNext(k - LAG);
    }
  }

  lemma {:induction false} PlaceApart(i: nat, j: nat)
    requires 0 < i < j < i + LAG
    ensures Place(i) != Place(j)
  {
    if i > LAG {
      PlaceApart(i - LAG, j - LAG);
    }
  }

  /** The array holds the last 311 words up to word `t`, and the index stands at the place of the next. */
  ghost predicate Holds(words: seq<bv64>, i: nat, key: seq<bv64>, t: nat)
    requires 0 < |key| < 0x1_0000_0000
  {
    && |words| == NN && t >= LAG && i == Place(t + 1) && words[i - 1] == Before(key, t + 1)
    && forall k :: t - LAG < k <= t ==> words[Place(k)] == Lagged(key, k)
  }

  lemma {:induction false} HoldsSeed(key: seq<bv64>)
    requires 0 < |key| < 0x1_0000_0000
    ensures Holds(SeedWords(19650218, NN), 1, key, LAG)
  {
    hide SeedWords, KeyWord, IndexWord;
    PlaceNext(LAG);
  }

  /** Writing the next word and going on keeps that. */
  lemma {:induction false} HoldsNext(words: seq<bv64>, i: nat, key: seq<bv64>, t: nat, w: bv64)
    requires 0 < |key| < 0x1_0000_0000 && Holds(words, i, key, t) && w == Lagged(key, t + 1)
    ensures 1 <= i < NN && var (after, i') := Advance(words[i := w], i); Holds(after, i', key, t + 1)
  {
    hide Lagged;
    PlaceNext(t + 1);
    var (after, i') := Advance(words[i := w], i);
    forall k | t + 1 - LAG < k <= t + 1
      ensures after[Place(k)] == Lagged(key, k)
    {
      if k <= t {
        PlaceApart(k, t + 1);
      }
    }
  }

  /** The word written this time is made from the one written 311 rounds ago. */
  lemma {:induction false} HoldsOld(words: seq<bv64>, i: nat, key: seq<bv64>, t: nat)
    requires 0 < |key| < 0x1_0000_0000 && Holds(words, i, key, t) && t + 1 >= NN
    ensures 0 < i < NN && words[i] == Lagged(key, t + 1 - LAG) && words[i - 1] == Before(key, t + 1)
  {
    hide Lagged, Before;
    assert Place(t + 1) == Place(t + 1 - LAG);
  }

  lemma {:induction false} NextKey(key: seq<bv64>, r: nat)
    requires 0 < |key| < 0x1_0000_0000 && 0 < r <= Rounds(key)
    ensures Lagged(key, LAG + r) == KeyWord(Lagged(key, r), Before(key, LAG + r), key[(r - 1) % |key|], (r - 1) % |key|)
  {
    hide Before, SeedWords, KeyWord, IndexWord;
  }

  lemma {:induction false} OneKeyRound(m: Mixer, key: seq<bv64>, r: nat)
    requires 0 < |key| < 0x1_0000_0000 && MixerOk(m, |key|) && 0 < r <= Rounds(key)
    requires Holds(m.words, m.i, key, LAG + r - 1) && m.j == (r - 1) % |key|
    ensures Holds(MixKey(m, key).words, MixKey(m, key).i, key, LAG + r) && MixKey(m, key).j == r % |key|
  {
    hide Holds, KeyWord, IndexWord, Advance, Lagged, Before;
    HoldsOld(m.words, m.i, key, LAG + r - 1);
    NextKey(key, r);
    HoldsNext(m.words, m.i, key, LAG + r - 1, KeyWord(m.words[m.i], m.words[m.i - 1], key[m.j], m.j));
    MersenneSeeding.NextRemainder(r - 1, |key|);
  }

  lemma {:induction false} AfterKeyRounds(key: seq<bv64>, r: nat)
    requires 0 < |key| < 0x1_0000_0000 && r <= Rounds(key)
    ensures var m := MixKeys(Mixer(SeedWords(19650218, NN), 1, 0), key, r);
            Holds(m.words, m.i, key, LAG + r) && m.j == r % |key|
  {
    hide SeedWords, Holds, MixKey;
    if r == 0 {
      HoldsSeed(key);
    } else {
      AfterKeyRounds(key, r - 1);
      OneKeyRound(MixKeys(Mixer(SeedWords(19650218, NN), 1, 0), key, r - 1), key, r);
    }
  }

  lemma {:induction false} AfterIndexRounds(key: seq<bv64>, m: Mixer, r: nat)
    requires 0 < |key| < 0x1_0000_0000 && |m.words| == NN && 1 <= m.i < NN && Holds(m.words, m.i, key, LAG + Rounds(key))
    ensures var d := MixIndexes(m, r); Holds(d.words, d.i, key, LAG + Rounds(key) + r)
  {
    hide SeedWords, Holds, KeyWord, IndexWord, Advance;
    if r > 0 {
      var d, t := MixIndexes(m, r - 1), LAG + Rounds(key) + r - 1;
      AfterIndexRounds(key, m, r - 1);
      HoldsOld(d.words, d.i, key, t);
      NextIndex(d.words, d.i, key, t);
      HoldsNext(d.words, d.i, key, t, IndexWord(d.words[d.i], d.words[d.i - 1], d.i));
    }
  }

  lemma {:induction false} NextIndex(words: seq<bv64>, i: nat, key: seq<bv64>, t: nat)
    requires 0 < |key| < 0x1_0000_0000 && Holds(words, i, key, t) && t >= LAG + Rounds(key) && 0 < i < NN
    ensures i == Place(t + 1) && Lagged(key, t + 1) == IndexWord(Lagged(key, t + 1 - LAG), Before(key, t + 1), i)
  {
    hide Before, SeedWords, KeyWord, IndexWord;
  }

  /**
   Main result: the words init_by_array64 leaves are the last 311 of that sequence, each at its place, and the
   word with only the top bit set at place 0.
   */
  lemma {:induction false} ArrayIsLagged(key: seq<bv64>, k: nat)
    requires 0 < |key| < 0x1_0000_0000 && Rounds(key) + LAG < k <= Rounds(key) + 2 * LAG
    ensures ArrayWords(key)[Place(k)] == Lagged(key, k) && ArrayWords(key)[0] == 0x8000_0000_0000_0000
  {
    hide SeedWords, MixKeys, MixIndexes, Lagged, Place;
    var m := MixKeys(Mixer(SeedWords(19650218, NN), 1, 0), key, Rounds(key));
    AfterKeyRounds(key, Rounds(key));
    AfterIndexRounds(key, m, LAG);
    assert ArrayWords(key) == MixIndexes(m, NN - 1).words[0 := 1 << 63];
  }
}
