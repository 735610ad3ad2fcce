/**
 What the generator of src/random.c never loses: each step of the recurrence is invertible on
 the 19937 bits that matter, so the state after any number of steps decides the first one, and
 neither initialiser can ever lead to the all-zero state.
 */
module MersenneBits {
  import opened MersenneTemper
  import opened MersenneTwister
  import opened MersenneWords

  // ----- the recurrence as a step on windows of 312 words

  /** The 19937 bits that decide the rest: the upper 33 of the first word, all of the others. */
  ghost predicate SameCore(w: seq<bv64>, v: seq<bv64>)
    requires |w| == |v| == NN
  {
    Upper(w[0]) == Upper(v[0]) && forall k :: 1 <= k < NN ==> w[k] == v[k]
  }

  function Forward(w: seq<bv64>): (r: seq<bv64>)
    requires |w| == NN
    ensures |r| == NN
  {
    w[1..] + [Twist(w[0], w[1], w[MM])]
  }

  function Backward(v: seq<bv64>): (r: seq<bv64>)
    requires |v| == NN
    ensures |r| == NN
  {
    var x := Unturn(Xor(v[NN - 1], v[MM - 1]));
    [Upper(x), Join(v[0], x)] + v[1..NN - 1]
  }

  lemma {:induction false} BackwardOfForward(w: seq<bv64>)
    requires |w| == NN
    ensures SameCore(Backward(Forward(w)), w)
  {
    hide Xor, Turn, Unturn, Join, Upper;
    var x := Join(w[0], w[1]);
    Cancel(Turn(x), w[MM]);
    UnturnOfTurn(x);
    UpperOfJoin(w[0], w[1]);
    UpperTwice(w[0]);
    RejoinSelf(w[0], w[1]);
  }

  lemma {:induction false} ForwardOfBackward(v: seq<bv64>)
    requires |v| == NN
    ensures SameCore(Forward(Backward(v)), v)
  {
    hide Xor, Turn, Unturn, Join, Upper;
    var d := Xor(v[NN - 1], v[MM - 1]);
    var x := Unturn(d);
    JoinUpper(x, Join(v[0], x));
    JoinSelf(x, v[0]);
    TurnOfUnturn(d);
    Cancel(v[NN - 1], v[MM - 1]);
    UpperOfJoin(v[0], x);
  }

  /** Both directions look at the core only. */
  lemma {:induction false} ForwardOfCore(w: seq<bv64>, v: seq<bv64>)
    requires |w| == |v| == NN
    requires SameCore(w, v)
    ensures Forward(w) == Forward(v)
  {
    hide Xor, Turn, Join, Upper;
    JoinUpper(w[0], w[1]);
    JoinUpper(v[0], v[1]);
  }

  lemma {:induction false} BackwardKeepsCore(w: seq<bv64>, v: seq<bv64>)
    requires |w| == |v| == NN
    requires SameCore(w, v)
    ensures SameCore(Backward(w), Backward(v))
  {
    hide Xor, Unturn, Join, Upper;
    var x := Unturn(Xor(v[NN - 1], v[MM - 1]));
    JoinUpper(w[0], x);
    JoinUpper(v[0], x);
  }

  lemma {:induction false} SameCoreSelf(w: seq<bv64>)
    requires |w| == NN
    ensures SameCore(w, w)
  {
  }

  lemma {:induction false} SameCoreTrans(a: seq<bv64>, b: seq<bv64>, c: seq<bv64>)
    requires |a| == NN && |b| == NN && |c| == NN
    requires (SameCore(a, b) || SameCore(b, a)) && SameCore(b, c)
    ensures SameCore(a, c)
  {
    hide Upper;
  }

  // ----- over whole runs

  /** The 312 words of the sequence from place `n` on: the state after `n` steps. */
  ghost function State(seed: seq<bv64>, n: nat): (r: seq<bv64>)
    requires |seed| == NN
    ensures |r| == NN
  {
    seq(NN, k requires 0 <= k < NN => Word(seed, n + k))
  }

  lemma {:induction false} StateStep(seed: seq<bv64>, n: nat)
    requires |seed| == NN
    ensures State(seed, n + 1) == Forward(State(seed, n))
  {
    WordStep(seed, n);
    hide Word, Twist;
    var w := State(seed, n);
    assert w[0] == Word(seed, n) && w[1] == Word(seed, n + 1) && w[MM] == Word(seed, n + MM);
  }

  lemma {:induction false} StateStart(seed: seq<bv64>)
    requires |seed| == NN
    ensures State(seed, 0) == seed
  {
  }

  /**
   Main result: no step loses anything. Two states agree on their 19937 bits after n steps if
   and only if the states they started from do.
   */
  lemma {:induction false} RunIsInvertible(s: seq<bv64>, t: seq<bv64>, n: nat)
    requires |s| == |t| == NN
    ensures SameCore(State(s, n), State(t, n)) <==> SameCore(s, t)
  {
    hide SameCore, State, Forward, Backward;
    if n == 0 {
      StateStart(s);
      StateStart(t);
    } else {
      RunIsInvertible(s, t, n - 1);
      var w, v := State(s, n - 1), State(t, n - 1);
      StateStep(s, n - 1);
      StateStep(t, n - 1);
      if SameCore(w, v) {
        ForwardOfCore(w, v);
        SameCoreSelf(Forward(w));
      }
      if SameCore(Forward(w), Forward(v)) {
        BackwardKeepsCore(Forward(w), Forward(v));
        BackwardOfForward(w);
        BackwardOfForward(v);
        SameCoreTrans(w, Backward(Forward(w)), Backward(Forward(v)));
        SameCoreTrans(w, Backward(Forward(v)), v);
      }
    }
  }

  // ----- the all-zero state

  function AllZero(): (w: seq<bv64>)
    ensures |w| == NN && forall k :: 0 <= k < NN ==> w[k] == 0
  {
    seq(NN, _ => 0)
  }

  lemma {:induction false} ZeroStays(n: nat)
    ensures State(AllZero(), n) == AllZero()
  {
    hide Xor, Turn, Join, State;
    StateStart(AllZero());
    if n > 0 {
      ZeroStays(n - 1);
      StateStep(AllZero(), n - 1);
      ZeroTwist();
    }
  }

  lemma {:induction false} ZeroTwist()
    ensures Twist(0, 0, 0) == 0
  {
    assert Join(0, 0) == 0;
    assert Turn(0) == 0;
    assert Xor(0, 0) == 0;
  }

  lemma {:induction false} SeedNotZero(x: bv64)
    ensures !SameCore(SeedWords(x, NN), AllZero())
  {
    hide SeedWords;
    var w := SeedWords(x, NN);
    SeedWordsAt(x, NN, 1);
    SeedWordsAt(x, NN, 2);
    if w[1] == 0 {
      assert w[2] == SeedWord(0, 2) == 2;
    }
  }

  lemma {:induction false} ArrayNotZero(key: seq<bv64>)
    requires 0 < |key| < 0x1_0000_0000
    ensures !SameCore(ArrayWords(key), AllZero())
  {
    hide MixKeys, MixIndexes;
    assert ArrayWords(key)[0] == 1 << 63;
  }

  /** Main result: neither initialiser leads to the all-zero core, in any number of steps. */
  lemma {:induction false} NeverZero(x: bv64, key: seq<bv64>, n: nat)
    requires 0 < |key| < 0x1_0000_0000
    ensures !SameCore(State(SeedWords(x, NN), n), AllZero())
    ensures !SameCore(State(ArrayWords(key), n), AllZero())
  {
    hide SameCore, State, SeedWords, ArrayWords;
    ZeroStays(n);
    RunIsInvertible(SeedWords(x, NN), AllZero(), n);
    RunIsInvertible(ArrayWords(key), AllZero(), n);
    SeedNotZero(x);
    ArrayNotZero(key);
  }
}
