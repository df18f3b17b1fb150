/** The upper-confidence-bound policies (`UCB`, `ImprovedUCB`).  Here `rewards[a]`
    holds the MEAN of the rewards drawn from machine a, and `n` counts the steps
    played so far. */
module UcbPolicies {
  import opened Statistics
  import opened AlgorithmBase

  /** The exploration bonus, confidence times a radius, as a function of a step count
      and a play count: it stands for confidence * sqrt(2 ln n / r) in UCB and for
      confidence * sqrt(ln n / r) in ImprovedUCB.  Its values are left uninterpreted. */
  type Exploration = (nat, nat) -> real

  /** What `do_one_step_ucb` returns: the reward drawn (None once the budget is
      spent) and the index of the step. */
  datatype StepOutcome = StepOutcome(reward: Option<real>, index: nat)

  /** UCB's bound of every machine: its mean plus the exploration bonus at
      the current step count and that machine's play count. */
  function UcbBounds(rewards: seq<real>, runs: seq<nat>, n: nat, bonus: Exploration): seq<real>
    requires |rewards| == |runs|
  {
    seq(|runs|, (a: int) requires 0 <= a < |runs| => rewards[a] + bonus(n, runs[a]))
  }

  /** Between two machines played equally often the bonus is the same, so UCB's bounds
      rank them by their means. */
  lemma UcbBoundsRankEqualCounts(rewards: seq<real>, runs: seq<nat>, n: nat, bonus: Exploration, a: nat, b: nat)
    requires |rewards| == |runs| && a < |runs| && b < |runs| && runs[a] == runs[b]
    ensures UcbBounds(rewards, runs, n, bonus)[a] > UcbBounds(rewards, runs, n, bonus)[b] <==> rewards[a] > rewards[b]
  {
  }

  /** The machine UCB selects: the lowest never-played machine if there is one;
      otherwise the first machine with the largest bound, provided that bound is
      positive; otherwise none (the scan starts from a best bound of 0). */
  function UcbSelection(rewards: seq<real>, runs: seq<nat>, n: nat, bonus: Exploration): (arg: Option<nat>)
    requires |rewards| == |runs|
    ensures arg.Some? ==> arg.value < |runs|
  {
    var untried := FirstIndexOf(runs, 0);
    if untried < |runs| then Some(untried)
    else if |runs| == 0 then None
    else
      var bounds := UcbBounds(rewards, runs, n, bonus);
      var k := FirstArgMax(bounds);
      if bounds[k] > 0.0 then Some(k) else None
  }

  /** While some machine has never been played, UCB selects the lowest such one. */
  lemma UcbSelectsUntried(rewards: seq<real>, runs: seq<nat>, n: nat, bonus: Exploration, a: nat)
    requires |rewards| == |runs| && a < |runs| && runs[a] == 0
    ensures var arg := UcbSelection(rewards, runs, n, bonus);
            arg.Some? && arg.value <= a && runs[arg.value] == 0 &&
            forall j :: 0 <= j < arg.value ==> runs[j] != 0
  {
    FirstIndexOfIsFirst(runs, 0);
  }

  /** Once every machine has been played, UCB selects the first machine with the
      largest bound when that bound is positive, and nothing when no bound exceeds 0. */
  lemma UcbSelectsBestBound(rewards: seq<real>, runs: seq<nat>, n: nat, bonus: Exploration)
    requires |rewards| == |runs| > 0
    requires forall a :: 0 <= a < |runs| ==> runs[a] != 0
    ensures var arg := UcbSelection(rewards, runs, n, bonus);
            var bounds := UcbBounds(rewards, runs, n, bonus);
            (arg.None? <==> forall a :: 0 <= a < |runs| ==> bounds[a] <= 0.0) &&
            (arg.Some? ==> IsFirstMax(bounds, arg.value) && bounds[arg.value] > 0.0)
  {
    var bounds := UcbBounds(rewards, runs, n, bonus);
    FirstArgMaxIsFirstMax(bounds);
    FirstIndexOfIsFirst(runs, 0);
    assert FirstIndexOf(runs, 0) == |runs|;
  }

  /** The cold start: when machines 0..k-1 have been played once and the rest never,
      UCB selects machine k. */
  lemma ColdStartSelects(rewards: seq<real>, runs: seq<nat>, n: nat, bonus: Exploration, k: nat)
    requires |rewards| == |runs| && k < |runs|
    requires forall a :: 0 <= a < |runs| ==> runs[a] == if a < k then 1 else 0
    ensures UcbSelection(rewards, runs, n, bonus) == Some(k)
  {
    FirstIndexOfIsFirst(runs, 0);
    assert runs[k] == 0;
  }

  /** How many times machine a occurs in the log of machines played. */
  ghost function Occurrences(log: seq<nat>, a: nat): nat
  {
    if log == [] then 0
    else Occurrences(log[..|log| - 1], a) + (if log[|log| - 1] == a then 1 else 0)
  }

  /** Every machine's play count is the number of times it occurs in the log. */
  ghost predicate CountsMatchLog(runs: seq<nat>, log: seq<nat>)
  {
    forall a :: 0 <= a < |runs| ==> runs[a] == Occurrences(log, a)
  }

  /** Every entry of the log is a machine, and the log begins with the cold start:
      step j played machine j, for every step before the machinesCount-th. */
  ghost predicate ColdStartLog(log: seq<nat>, machinesCount: nat)
  {
    forall j :: 0 <= j < |log| ==> log[j] < machinesCount && (j < machinesCount ==> log[j] == j)
  }

  /** Logging one more play of machine k keeps the counts matching the log. */
  lemma CountsFollowLog(before: seq<nat>, after: seq<nat>, log: seq<nat>, k: nat)
    requires k < |before| && after == before[k := before[k] + 1]
    requires CountsMatchLog(before, log)
    ensures CountsMatchLog(after, log + [k])
  {
    assert (log + [k])[..|log|] == log;
  }

  /** An entry of the log is counted among its machine's occurrences. */
  lemma {:induction false} OccursAtLeastOnce(log: seq<nat>, j: nat)
    requires j < |log|
    ensures Occurrences(log, log[j]) >= 1
  {
    if j < |log| - 1 {
      OccursAtLeastOnce(log[..|log| - 1], j);
    }
  }

  /** A log 0, 1, ..., k-1 holds each of those machines once and no other. */
  lemma {:induction false} ColdStartOccurrences(log: seq<nat>, a: nat)
    requires ColdStartLog(log, |log|)
    ensures Occurrences(log, a) == if a < |log| then 1 else 0
  {
    if log != [] {
      ColdStartOccurrences(log[..|log| - 1], a);
    }
  }

  /** During the cold start the counts are 1 for the machines logged and 0 for the rest. */
  lemma ColdStartCounts(runs: seq<nat>, log: seq<nat>)
    requires |log| < |runs| && CountsMatchLog(runs, log) && ColdStartLog(log, |runs|)
    ensures forall a :: 0 <= a < |runs| ==> runs[a] == if a < |log| then 1 else 0
  {
    forall a | 0 <= a < |runs|
      ensures runs[a] == if a < |log| then 1 else 0
    {
      ColdStartOccurrences(log, a);
    }
  }

  /** Once the cold start is complete, every machine has been played. */
  lemma ColdStartCoversAll(runs: seq<nat>, log: seq<nat>)
    requires |log| >= |runs| && CountsMatchLog(runs, log) && ColdStartLog(log, |runs|)
    ensures forall a :: 0 <= a < |runs| ==> runs[a] >= 1
  {
    forall a | 0 <= a < |runs|
      ensures runs[a] >= 1
    {
      OccursAtLeastOnce(log, a);
    }
  }

  /** The UCB policy. */
  class UCB {
    const algo: Algorithm
    const bonus: Exploration
    var n: nat

    /** `n` counts the plays, and every entry of `rewards` is its machine's mean. */
    ghost predicate Valid()
      reads this, algo, algo.runs, algo.rewards
    {
      algo.Valid() && n == SumNat(algo.runs[..]) && algo.HoldsMeans()
    }

    /** `__init__` stores the parameters, then runs `initialize`. */
    constructor (casino: Casino, initialCredit: int, bonus: Exploration)
      requires casino.machinesCount > 0
      ensures Valid() && fresh(algo) && n == 0
      ensures algo.casino == casino && algo.initialCredit == initialCredit
      ensures this.bonus == bonus
      ensures forall a :: 0 <= a < casino.machinesCount ==> algo.runs[a] == 0 && algo.rewards[a] == 0.0
    {
      algo := new Algorithm(casino, initialCredit);
      this.bonus := bonus;
      n := 0;
      new;
      SumNatZeros(algo.runs[..]);
    }

    /** `initialize`: fresh zero statistics and a zero step count. */
    method Initialize()
      requires Valid()
      modifies this, algo
      ensures Valid() && fresh(algo.runs) && fresh(algo.rewards) && n == 0
      ensures forall a :: 0 <= a < algo.casino.machinesCount ==> algo.runs[a] == 0 && algo.rewards[a] == 0.0
    {
      algo.Initialize();
      n := 0;
      SumNatZeros(algo.runs[..]);
    }

    /** The machine the current statistics select. */
    ghost function Selection(): (arg: Option<nat>)
      reads this, algo, algo.runs, algo.rewards
      requires algo.Valid()
      ensures arg.Some? ==> arg.value < algo.casino.machinesCount
    {
      UcbSelection(algo.rewards[..], algo.runs[..], n, bonus)
    }

    /** `_maximal_reward_arg`: scan the machines in order, return the first one never
        played, and otherwise keep the first strictly best bound above 0. */
    method MaximalRewardArg() returns (arg: Option<nat>)
      requires algo.Valid()
      ensures arg == Selection()
    {
      var machinesCount := algo.casino.machinesCount;
      var runs, rewards := algo.runs[..], algo.rewards[..];
      ghost var bounds := UcbBounds(rewards, runs, n, bonus);
      arg := None;
      var maximalReward := 0.0;
      ghost var best: nat := 0;
      var a := 0;
      while a < machinesCount
        invariant 0 <= a <= machinesCount && best < machinesCount
        invariant forall j :: 0 <= j < a ==> runs[j] != 0
        invariant a > 0 ==> best == FirstArgMax(bounds[..a])
        invariant arg.Some? ==> a > 0 && arg.value == best && maximalReward == bounds[best] > 0.0
        invariant arg.None? ==> maximalReward == 0.0 && (a > 0 ==> bounds[best] <= 0.0)
      {
        if runs[a] == 0 {
          assert FirstIndexOf(runs, 0) == a by {
            FirstIndexOfIsFirst(runs, 0);
            assert runs[a] == 0;
          }
          return Some(a);
        }
        var reward := rewards[a] + bonus(n, runs[a]);
        assert reward == bounds[a];
        if a > 0 {
          FirstArgMaxExtend(bounds, a);
        }
        if reward > maximalReward {
          maximalReward := reward;
          arg := Some(a);
        }
        if a == 0 || bounds[a] > bounds[best] {
          best := a;
        }
        a := a + 1;
      }
      assert FirstIndexOf(runs, 0) == machinesCount by {
        FirstIndexOfIsFirst(runs, 0);
      }
      assert bounds[..machinesCount] == bounds;
    }

    /** `do_one_step_ucb`: once the budget is spent, report the step count and change
        nothing; otherwise play the selected machine, fold its reward into its mean
        and count the step.  Indexing the machines with no selection raises. */
    method DoOneStep() returns (r: Result<StepOutcome>)
      requires Valid()
      modifies this, algo.runs, algo.rewards
      ensures Valid()
      ensures old(n) >= algo.initialCredit ==>
                r == Ok(StepOutcome(None, old(n))) && n == old(n) &&
                algo.runs[..] == old(algo.runs[..]) && algo.rewards[..] == old(algo.rewards[..])
      ensures old(n) < algo.initialCredit && old(Selection()).None? ==>
                r == Err(NoneMachineIndex) && n == old(n) &&
                algo.runs[..] == old(algo.runs[..]) && algo.rewards[..] == old(algo.rewards[..])
      ensures old(n) < algo.initialCredit && old(Selection()).Some? ==>
                var k := old(Selection()).value;
                r == Ok(StepOutcome(Some(algo.casino.play(k, old(algo.runs[k]))), old(n))) &&
                n == old(n) + 1 &&
                algo.runs[..] == old(algo.runs[..])[k := old(algo.runs[k]) + 1]
      ensures r.Ok? && r.value.reward.Some? ==>
                TotalDraws(algo.casino.play, algo.runs[..])
                == old(TotalDraws(algo.casino.play, algo.runs[..])) + r.value.reward.value
    {
      if n >= algo.initialCredit {
        return Ok(StepOutcome(None, n));
      }
      var arg := MaximalRewardArg();
      if arg.None? {
        return Err(NoneMachineIndex);
      }
      ghost var before := algo.runs[..];
      TotalDrawsStep(algo.casino.play, before, arg.value);
      var reward := algo.PlayAndAverage(arg.value);
      assert algo.runs[..] == before[arg.value := before[arg.value] + 1];
      n := n + 1;
      r := Ok(StepOutcome(Some(reward), n - 1));
    }

    /** The stepping loop of `do_ucb`: from zero statistics, run initialCredit steps
        adding up their rewards, stopping at the first step that fails.  `played`
        lists the machines played, in order. */
    method RunSteps() returns (r: Result<real>, ghost played: seq<nat>)
      requires Valid() && n == 0
      requires forall a :: 0 <= a < algo.casino.machinesCount ==> algo.runs[a] == 0
      modifies this, algo.runs, algo.rewards
      ensures Valid() && |played| == n
      ensures r.Ok? ==> n == (if algo.initialCredit > 0 then algo.initialCredit else 0) &&
                        r.value == TotalDraws(algo.casino.play, algo.runs[..])
      ensures r.Err? ==> r.failure == NoneMachineIndex && n < algo.initialCredit && Selection().None?
      ensures ColdStartLog(played, algo.casino.machinesCount) && CountsMatchLog(algo.runs[..], played)
      ensures algo.initialCredit >= algo.casino.machinesCount ==> n >= algo.casino.machinesCount
    {
      var machinesCount := algo.casino.machinesCount;
      TotalDrawsZeros(algo.casino.play, algo.runs[..]);
      var v := 0.0;
      played := [];
      var i := 0;
      while i < algo.initialCredit
        modifies this, algo.runs, algo.rewards
        invariant Valid() && n == i && |played| == i && (i == 0 || i <= algo.initialCredit)
        invariant v == TotalDraws(algo.casino.play, algo.runs[..])
        invariant ColdStartLog(played, machinesCount) && CountsMatchLog(algo.runs[..], played)
      {
        if i < machinesCount {
          ColdStartCounts(algo.runs[..], played);
          ColdStartSelects(algo.rewards[..], algo.runs[..], n, bonus, i);
        }
        ghost var k := Selection();
        ghost var before := algo.runs[..];
        var step := DoOneStep();
        if step.Err? {
          return Err(step.failure), played;
        }
        CountsFollowLog(before, algo.runs[..], played, k.value);
        v := v + step.value.reward.value;
        played := played + [k.value];
        i := i + 1;
      }
      r := Ok(v);
    }

    /** `do_ucb`: reset, run initialCredit steps adding up their rewards, then check
        that a further step plays nothing and that the play counts add up to the
        budget.  `played` lists the machines played, in order: each machine's play
        count is the number of times it occurs there. */
    method DoUcb() returns (r: Result<real>, ghost played: seq<nat>)
      requires Valid()
      modifies this, algo
      ensures Valid() && fresh(algo.runs) && fresh(algo.rewards)
      ensures algo.initialCredit < 0 ==> r == Err(RunsSumMismatch)
      ensures r.Ok? ==> n == algo.initialCredit && SumNat(algo.runs[..]) == algo.initialCredit &&
                        r.value == TotalDraws(algo.casino.play, algo.runs[..])
      ensures r.Err? && algo.initialCredit >= 0 ==>
                r.failure == NoneMachineIndex && n < algo.initialCredit && Selection().None?
      ensures |played| == n
      ensures ColdStartLog(played, algo.casino.machinesCount) && CountsMatchLog(algo.runs[..], played)
      ensures algo.initialCredit >= algo.casino.machinesCount ==>
                n >= algo.casino.machinesCount &&
                forall a :: 0 <= a < algo.casino.machinesCount ==> algo.runs[a] >= 1
    {
      Initialize();
      r, played := RunSteps();
      if algo.initialCredit >= algo.casino.machinesCount {
        ColdStartCoversAll(algo.runs[..], played);
      }
      if r.Err? {
        return;
      }
      var last := DoOneStep();
      assert last == Ok(StepOutcome(None, n));
      if SumNat(algo.runs[..]) != algo.initialCredit {
        return Err(RunsSumMismatch), played;
      }
    }
  }

  /** ImprovedUCB's bound of every machine: its mean plus the exploration bonus
      at one more than the step count and one more than that machine's play count. */
  function ImprovedBounds(rewards: seq<real>, runs: seq<nat>, n: nat, bonus: Exploration): seq<real>
    requires |rewards| == |runs|
  {
    seq(|runs|, (a: int) requires 0 <= a < |runs| => rewards[a] + bonus(n + 1, runs[a] + 1))
  }

  /** Between two machines played equally often the bonus is the same, so ImprovedUCB's
      bounds rank them by their means. */
  lemma ImprovedBoundsRankEqualCounts(rewards: seq<real>, runs: seq<nat>, n: nat, bonus: Exploration, a: nat, b: nat)
    requires |rewards| == |runs| && a < |runs| && b < |runs| && runs[a] == runs[b]
    ensures ImprovedBounds(rewards, runs, n, bonus)[a] > ImprovedBounds(rewards, runs, n, bonus)[b] <==> rewards[a] > rewards[b]
  {
  }

  /** The ImprovedUCB policy. */
  class ImprovedUCB {
    const algo: Algorithm
    const bonus: Exploration
    var n: nat

    /** `n` counts the plays, and every entry of `rewards` is its machine's mean. */
    ghost predicate Valid()
      reads this, algo, algo.runs, algo.rewards
    {
      algo.Valid() && n == SumNat(algo.runs[..]) && algo.HoldsMeans()
    }

    /** `__init__` stores the parameters, then runs `initialize`. */
    constructor (casino: Casino, initialCredit: int, bonus: Exploration)
      requires casino.machinesCount > 0
      ensures Valid() && fresh(algo) && n == 0
      ensures algo.casino == casino && algo.initialCredit == initialCredit
      ensures this.bonus == bonus
      ensures forall a :: 0 <= a < casino.machinesCount ==> algo.runs[a] == 0 && algo.rewards[a] == 0.0
    {
      algo := new Algorithm(casino, initialCredit);
      this.bonus := bonus;
      n := 0;
      new;
      SumNatZeros(algo.runs[..]);
    }

    /** `initialize`: fresh zero statistics and a zero step count. */
    method Initialize()
      requires Valid()
      modifies this, algo
      ensures Valid() && fresh(algo.runs) && fresh(algo.rewards) && n == 0
      ensures forall a :: 0 <= a < algo.casino.machinesCount ==> algo.runs[a] == 0 && algo.rewards[a] == 0.0
    {
      algo.Initialize();
      n := 0;
      SumNatZeros(algo.runs[..]);
    }

    /** `_maximal_reward_arg`: `np.argmax` of the bounds, which always names a machine. */
    function MaximalRewardArg(): (index: nat)
      reads this, algo, algo.runs, algo.rewards
      requires algo.Valid()
      ensures index < algo.casino.machinesCount
    {
      FirstArgMax(ImprovedBounds(algo.rewards[..], algo.runs[..], n, bonus))
    }

    /** The selected machine is the lowest index holding the largest bound, with no
        special case for machines never played. */
    lemma MaximalRewardArgIsFirstMax()
      requires algo.Valid()
      ensures IsFirstMax(ImprovedBounds(algo.rewards[..], algo.runs[..], n, bonus), MaximalRewardArg())
    {
      FirstArgMaxIsFirstMax(ImprovedBounds(algo.rewards[..], algo.runs[..], n, bonus));
    }

    /** `do_one_step_ucb`: once the budget is spent, report the step count and change
        nothing; otherwise play the arg-max machine, fold its reward into its mean and
        count the step. */
    method DoOneStep() returns (outcome: StepOutcome)
      requires Valid()
      modifies this, algo.runs, algo.rewards
      ensures Valid()
      ensures old(n) >= algo.initialCredit ==>
                outcome == StepOutcome(None, old(n)) && n == old(n) &&
                algo.runs[..] == old(algo.runs[..]) && algo.rewards[..] == old(algo.rewards[..])
      ensures old(n) < algo.initialCredit ==>
                var k := old(MaximalRewardArg());
                outcome == StepOutcome(Some(algo.casino.play(k, old(algo.runs[k]))), old(n)) &&
                n == old(n) + 1 &&
                algo.runs[..] == old(algo.runs[..])[k := old(algo.runs[k]) + 1]
      ensures outcome.reward.Some? ==>
                TotalDraws(algo.casino.play, algo.runs[..])
                == old(TotalDraws(algo.casino.play, algo.runs[..])) + outcome.reward.value
    {
      if n >= algo.initialCredit {
        return StepOutcome(None, n);
      }
      var arg := MaximalRewardArg();
      TotalDrawsStep(algo.casino.play, algo.runs[..], arg);
      var reward := algo.PlayAndAverage(arg);
      n := n + 1;
      outcome := StepOutcome(Some(reward), n - 1);
    }

    /** `do_ucb`: reset, run initialCredit steps adding up their rewards, then check
        that a further step plays nothing and that the play counts add up to the
        budget, which fails only for a negative budget. */
    method DoUcb() returns (r: Result<real>)
      requires Valid()
      modifies this, algo
      ensures Valid() && fresh(algo.runs) && fresh(algo.rewards)
      ensures r.Err? <==> algo.initialCredit < 0
      ensures r.Err? ==> r.failure == RunsSumMismatch && n == 0
      ensures r.Ok? ==> n == algo.initialCredit && SumNat(algo.runs[..]) == algo.initialCredit &&
                        r.value == TotalDraws(algo.casino.play, algo.runs[..])
    {
      Initialize();
      TotalDrawsZeros(algo.casino.play, algo.runs[..]);
      var v := 0.0;
      var i := 0;
      while i < algo.initialCredit
        modifies this, algo.runs, algo.rewards
        invariant Valid() && n == i && (i == 0 || i <= algo.initialCredit)
        invariant v == TotalDraws(algo.casino.play, algo.runs[..])
      {
        var step := DoOneStep();
        v := v + step.reward.value;
        i := i + 1;
      }
      var last := DoOneStep();
      assert last == StepOutcome(None, n);
      if SumNat(algo.runs[..]) != algo.initialCredit {
        return Err(RunsSumMismatch);
      }
      r := Ok(v);
    }
  }
}
