/** Sums over the program counters and over the per-thread history. */
module CondVarTotals {
  import opened CondVar

  /** Between waiters++ and waiters--. */
  function Counted(pc: Pc): nat {
    if Unserved(pc) == 1 || pc.WokenEnter? || pc.WokenDecrement? then 1 else 0
  }

  /** Counted, and no token taken yet. */
  function Unserved(pc: Pc): nat {
    if pc.WaitLeave? || pc.WaitUnlock? || pc.WaitBlock? then 1 else 0
  }

  /** Holding the verdict that it must set the continue event, and not having set it. */
  function Notifier(pc: Pc): nat {
    if (pc.WokenLeave? && pc.last) || (pc.WokenNotify? && pc.last) then 1 else 0
  }

  /** Between waiters-- and that verdict. */
  function Deciding(pc: Pc): nat {
    if pc.WokenReadFlag? || pc.WokenReadCount? then 1 else 0
  }

  function Total(weight: Pc -> nat, pcs: seq<Pc>): nat {
    if pcs == [] then 0 else weight(pcs[0]) + Total(weight, pcs[1..])
  }

  function Sum(xs: seq<nat>): nat {
    if xs == [] then 0 else xs[0] + Sum(xs[1..])
  }

  lemma {:induction false} TotalUpdate(weight: Pc -> nat, pcs: seq<Pc>, t: Tid, pc: Pc)
    requires t < |pcs|
    ensures Total(weight, pcs[t := pc]) + weight(pcs[t]) == Total(weight, pcs) + weight(pc)
  {
    if t == 0 {
      assert pcs[t := pc][1..] == pcs[1..];
    } else {
      assert pcs[t := pc][1..] == pcs[1..][t - 1 := pc];
      TotalUpdate(weight, pcs[1..], t - 1, pc);
    }
  }

  lemma {:induction false} TotalAtLeast(weight: Pc -> nat, pcs: seq<Pc>, t: Tid)
    requires t < |pcs|
    ensures weight(pcs[t]) <= Total(weight, pcs)
  {
    if t > 0 {
      TotalAtLeast(weight, pcs[1..], t - 1);
    }
  }

  lemma {:induction false} TotalPair(weight: Pc -> nat, pcs: seq<Pc>, t: Tid, u: Tid)
    requires t < u < |pcs|
    ensures weight(pcs[t]) + weight(pcs[u]) <= Total(weight, pcs)
  {
    if t == 0 {
      TotalAtLeast(weight, pcs[1..], u - 1);
    } else {
      TotalPair(weight, pcs[1..], t - 1, u - 1);
    }
  }

  /** A positive total has a thread behind it. */
  lemma {:induction false} TotalWitness(weight: Pc -> nat, pcs: seq<Pc>) returns (t: Tid)
    requires Total(weight, pcs) > 0
    ensures t < |pcs| && weight(pcs[t]) > 0
  {
    if weight(pcs[0]) > 0 {
      t := 0;
    } else {
      var u := TotalWitness(weight, pcs[1..]);
      t := u + 1;
    }
  }

  lemma {:induction false} TotalZero(weight: Pc -> nat, pcs: seq<Pc>)
    requires forall t :: 0 <= t < |pcs| ==> weight(pcs[t]) == 0
    ensures Total(weight, pcs) == 0
  {
    if pcs != [] {
      TotalZero(weight, pcs[1..]);
    }
  }

  lemma {:induction false} TotalLength(weight: Pc -> nat, pcs: seq<Pc>)
    requires forall pc :: weight(pc) <= 1
    ensures Total(weight, pcs) <= |pcs|
  {
    if pcs != [] {
      TotalLength(weight, pcs[1..]);
    }
  }

  lemma {:induction false} TotalBelow(low: Pc -> nat, high: Pc -> nat, pcs: seq<Pc>)
    requires forall pc :: low(pc) <= high(pc)
    ensures Total(low, pcs) <= Total(high, pcs)
  {
    if pcs != [] {
      TotalBelow(low, high, pcs[1..]);
    }
  }

  lemma {:induction false} SumUpdate(xs: seq<nat>, t: Tid, x: nat)
    requires t < |xs|
    ensures Sum(xs[t := x]) + xs[t] == Sum(xs) + x
  {
    if t == 0 {
      assert xs[t := x][1..] == xs[1..];
    } else {
      assert xs[t := x][1..] == xs[1..][t - 1 := x];
      SumUpdate(xs[1..], t - 1, x);
    }
  }

  lemma {:induction false} SumZero(xs: seq<nat>)
    requires forall t :: 0 <= t < |xs| ==> xs[t] == 0
    ensures Sum(xs) == 0
  {
    if xs != [] {
      SumZero(xs[1..]);
    }
  }
}
