/**
 One joined word of the recurrence of src/random.c: the shift and conditional exclusive or can
 be undone, and the two parts of a joined word can be told apart.
 */
module MersenneWords {
  import opened MersenneTemper
  import opened MersenneTwister

  // ----- one joined word

  function Half(x: bv64): bv64 { x >> 1 }
  function Twice(u: bv64): bv64 { u << 1 }
  function TwiceAndOne(u: bv64): bv64 { (u << 1) | 1 }
  predicate HighBit(y: bv64) { y >> 63 == 1 }

  /** The word that Turn takes to `y`: the top bit of MATRIX_A tells whether it was added. */
  function Unturn(y: bv64): bv64 {
    if HighBit(y) then TwiceAndOne(Xor(y, MATRIX_A)) else Twice(y)
  }

  lemma {:induction false} TurnByParity(x: bv64)
    ensures Turn(x) == if x & 1 == 1 then Xor(Half(x), MATRIX_A) else Xor(Half(x), 0)
  {
    hide Xor;
  }

  lemma {:induction false} HalfBack(x: bv64)
    ensures x == if x & 1 == 1 then TwiceAndOne(Half(x)) else Twice(Half(x))
  {
  }

  lemma {:induction false} HighBitTells(x: bv64)
    ensures HighBit(Xor(Half(x), MATRIX_A)) && !HighBit(Half(x))
  {
  }

  lemma {:induction false} UnturnOfTurn(x: bv64)
    ensures Unturn(Turn(x)) == x
  {
    hide Xor, Turn, Half, Twice, TwiceAndOne, HighBit;
    TurnByParity(x);
    HalfBack(x);
    HighBitTells(x);
    Cancel(Half(x), MATRIX_A);
    Zero(Half(x));
  }

  lemma {:induction false} TurnOfUnturn(y: bv64)
    ensures Turn(Unturn(y)) == y
  {
    if y >> 63 == 1 {
      OddUnturn(y);
    } else {
      EvenUnturn(y);
    }
  }

  lemma {:induction false} OddUnturn(y: bv64)
    requires y >> 63 == 1
    ensures (((y ^ MATRIX_A) << 1) | 1) & 1 == 1
    ensures ((((y ^ MATRIX_A) << 1) | 1) >> 1) ^ MATRIX_A == y
  {
  }

  lemma {:induction false} EvenUnturn(y: bv64)
    requires y >> 63 != 1
    ensures (y << 1) & 1 != 1
    ensures ((y << 1) >> 1) ^ 0 == y
  {
  }

  // ----- the parts of a joined word

  lemma {:induction false} UpperTwice(x: bv64)
    ensures Upper(Upper(x)) == Upper(x)
  {
  }

  lemma {:induction false} JoinUpper(x: bv64, next: bv64)
    ensures Join(Upper(x), next) == Join(x, next)
  {
    hide Upper;
    UpperTwice(x);
  }

  lemma {:induction false} UpperOfJoin(far: bv64, next: bv64)
    ensures Upper(Join(far, next)) == Upper(far)
  {
  }

  lemma {:induction false} JoinSelf(x: bv64, far: bv64)
    ensures Join(x, Join(far, x)) == x
  {
  }

  lemma {:induction false} RejoinSelf(far: bv64, next: bv64)
    ensures Join(next, Join(far, next)) == next
  {
  }
}
