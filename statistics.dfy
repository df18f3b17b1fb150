/** The pure vocabulary shared by every policy: the casino as a reward oracle,
    per-arm sums and means of the rewards drawn, sums over the statistics
    arrays, and the first-index arg-max that `np.argmax` computes. */
module Statistics {

  datatype Option<+T> = None | Some(value: T)

  /** The exceptions a policy run can raise. */
  datatype Failure =
    | EmptyRandIntRange  // np.random.randint(0, 0): the range [low, high) is empty
    | NoneMachineIndex   // machines[None]: UCB found no arm whose bound exceeds 0
    | RunsSumMismatch    // the closing assertion of do_ucb: sum of runs != initial credit

  datatype Result<+T> = Ok(value: T) | Err(failure: Failure)

  /** play(arm, k) is the reward of the k-th play of machine `arm` (k counts that
      machine's earlier plays).  The reward distribution itself is not modelled. */
  type Oracle = (nat, nat) -> real

  /** The casino as the policies see it: a number of machines and their rewards. */
  datatype Casino = Casino(machinesCount: nat, play: Oracle)

  /** Sum of the first k rewards drawn from machine `arm`. */
  function SumDraws(play: Oracle, arm: nat, k: nat): real
  {
    if k == 0 then 0.0 else SumDraws(play, arm, k - 1) + play(arm, k - 1)
  }

  /** Arithmetic mean of the first k rewards of machine `arm` (0 before any play). */
  function MeanDraws(play: Oracle, arm: nat, k: nat): real
  {
    if k == 0 then 0.0 else SumDraws(play, arm, k) / k as real
  }

  /** The incremental-mean update `(runs*mean + reward) / (runs + 1)` turns the mean
      of the first k rewards into the mean of the first k + 1. */
  lemma IncrementalMean(play: Oracle, arm: nat, k: nat)
    ensures (k as real * MeanDraws(play, arm, k) + play(arm, k)) / (k + 1) as real
            == MeanDraws(play, arm, k + 1)
  {
  }

  /** `ndarray.sum()` of a real array; a zero array sums to 0. */
  function Sum(s: seq<real>): (total: real)
    ensures (forall i :: 0 <= i < |s| ==> s[i] == 0.0) ==> total == 0.0
  {
    if s == [] then 0.0 else Sum(s[..|s| - 1]) + s[|s| - 1]
  }

  /** `ndarray.sum()` of the play counts. */
  function SumNat(s: seq<nat>): nat
  {
    if s == [] then 0 else SumNat(s[..|s| - 1]) + s[|s| - 1]
  }

  /** Changing one play count changes the total by the same amount. */
  lemma {:induction false} SumNatUpdate(s: seq<nat>, i: nat, v: nat)
    requires i < |s|
    ensures SumNat(s[i := v]) == SumNat(s) - s[i] + v
  {
    var t := s[i := v];
    if i < |s| - 1 {
      assert t[..|t| - 1] == s[..|s| - 1][i := v];
      SumNatUpdate(s[..|s| - 1], i, v);
    } else {
      assert t[..|t| - 1] == s[..|s| - 1];
    }
  }

  /** Zeroed play counts total zero. */
  lemma {:induction false} SumNatZeros(s: seq<nat>)
    requires forall a :: 0 <= a < |s| ==> s[a] == 0
    ensures SumNat(s) == 0
  {
    if s != [] {
      SumNatZeros(s[..|s| - 1]);
    }
  }

  /** All rewards drawn when machine a has been played runs[a] times. */
  function TotalDraws(play: Oracle, runs: seq<nat>): real
  {
    if runs == [] then 0.0
    else TotalDraws(play, runs[..|runs| - 1]) + SumDraws(play, |runs| - 1, runs[|runs| - 1])
  }

  /** One more play of machine a adds exactly that play's reward to the total. */
  lemma {:induction false} TotalDrawsStep(play: Oracle, runs: seq<nat>, a: nat)
    requires a < |runs|
    ensures TotalDraws(play, runs[a := runs[a] + 1]) == TotalDraws(play, runs) + play(a, runs[a])
  {
    var t := runs[a := runs[a] + 1];
    if a < |runs| - 1 {
      assert t[..|t| - 1] == runs[..|runs| - 1][a := runs[a] + 1];
      TotalDrawsStep(play, runs[..|runs| - 1], a);
    } else {
      assert t[..|t| - 1] == runs[..|runs| - 1];
    }
  }

  /** Before any play nothing has been drawn. */
  lemma {:induction false} TotalDrawsZeros(play: Oracle, runs: seq<nat>)
    requires forall a :: 0 <= a < |runs| ==> runs[a] == 0
    ensures TotalDraws(play, runs) == 0.0
  {
    if runs != [] {
      TotalDrawsZeros(play, runs[..|runs| - 1]);
    }
  }

  /** When every entry of `sums` is the sum of the rewards drawn from its machine,
      the array's total is the total of all rewards drawn. */
  lemma {:induction false} SumOfArmSums(play: Oracle, sums: seq<real>, runs: seq<nat>)
    requires |sums| == |runs|
    requires forall a :: 0 <= a < |runs| ==> sums[a] == SumDraws(play, a, runs[a])
    ensures Sum(sums) == TotalDraws(play, runs)
  {
    if runs != [] {
      SumOfArmSums(play, sums[..|sums| - 1], runs[..|runs| - 1]);
    }
  }

  /** k is the lowest index holding the maximum of s. */
  ghost predicate IsFirstMax(s: seq<real>, k: nat)
  {
    k < |s| &&
    (forall j :: 0 <= j < |s| ==> s[j] <= s[k]) &&
    (forall j :: 0 <= j < k ==> s[j] < s[k])
  }

  /** `np.argmax`: a left-to-right scan that moves only on a strictly larger value. */
  function FirstArgMax(s: seq<real>): (k: nat)
    requires |s| > 0
    ensures k < |s|
  {
    if |s| == 1 then 0
    else
      var k := FirstArgMax(s[..|s| - 1]);
      if s[|s| - 1] > s[k] then |s| - 1 else k
  }

  /** The arg-max is the lowest index holding the maximum: ties go to the lower index. */
  lemma {:induction false} FirstArgMaxIsFirstMax(s: seq<real>)
    requires |s| > 0
    ensures IsFirstMax(s, FirstArgMax(s))
  {
    if |s| > 1 {
      FirstArgMaxIsFirstMax(s[..|s| - 1]);
    }
  }

  /** The first maximiser is unique, so any index with that property is the arg-max. */
  lemma {:induction false} FirstMaxUnique(s: seq<real>, k: nat)
    requires IsFirstMax(s, k)
    ensures k == FirstArgMax(s)
  {
    FirstArgMaxIsFirstMax(s);
  }

  /** Extending the scanned prefix by one element moves the arg-max there exactly
      when that element is strictly larger than the current maximum. */
  lemma FirstArgMaxExtend(s: seq<real>, a: nat)
    requires 0 < a < |s|
    ensures FirstArgMax(s[..a + 1]) == if s[a] > s[FirstArgMax(s[..a])] then a else FirstArgMax(s[..a])
  {
    assert s[..a + 1][..a] == s[..a];
  }

  /** Index of the first occurrence of x in s, or |s| when there is none. */
  function FirstIndexOf(s: seq<nat>, x: nat): (k: nat)
    ensures k <= |s|
  {
    if s == [] then 0
    else if s[0] == x then 0
    else 1 + FirstIndexOf(s[1..], x)
  }

  /** FirstIndexOf finds an occurrence, and no earlier position holds x. */
  lemma {:induction false} FirstIndexOfIsFirst(s: seq<nat>, x: nat)
    ensures FirstIndexOf(s, x) < |s| ==> s[FirstIndexOf(s, x)] == x
    ensures forall j :: 0 <= j < FirstIndexOf(s, x) ==> s[j] != x
  {
    if s != [] && s[0] != x {
      FirstIndexOfIsFirst(s[1..], x);
    }
  }
}
