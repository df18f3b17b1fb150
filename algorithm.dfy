/** The state every policy shares (the `Algorithm` base class): the casino, the
    credit budget, and two per-machine arrays, the play counts `runs` and the
    reward statistics `rewards`. */
module AlgorithmBase {
  import opened Statistics

  class Algorithm {
    const casino: Casino
    const initialCredit: int
    var runs: array<nat>
    var rewards: array<real>

    /** Both arrays have one entry per machine of a non-empty casino. */
    ghost predicate Valid()
      reads this
    {
      casino.machinesCount > 0 &&
      runs.Length == casino.machinesCount &&
      rewards.Length == casino.machinesCount
    }

    /** `__init__` stores the casino and the budget, then runs `initialize`. */
    constructor (casino: Casino, initialCredit: int)
      requires casino.machinesCount > 0
      ensures Valid() && this.casino == casino && this.initialCredit == initialCredit
      ensures forall a :: 0 <= a < casino.machinesCount ==> runs[a] == 0 && rewards[a] == 0.0
    {
      this.casino := casino;
      this.initialCredit := initialCredit;
      runs := new nat[casino.machinesCount](_ => 0);
      rewards := new real[casino.machinesCount](_ => 0.0);
    }

    /** `initialize`: fresh zero arrays, one entry per machine. */
    method Initialize()
      requires Valid()
      modifies this
      ensures Valid() && fresh(runs) && fresh(rewards)
      ensures forall a :: 0 <= a < casino.machinesCount ==> runs[a] == 0 && rewards[a] == 0.0
    {
      runs := new nat[casino.machinesCount](_ => 0);
      rewards := new real[casino.machinesCount](_ => 0.0);
    }

    /** Greedy statistics: rewards[a] is the sum of the rewards drawn from machine a. */
    ghost predicate HoldsSums()
      reads this, runs, rewards
      requires Valid()
    {
      forall a :: 0 <= a < casino.machinesCount ==> rewards[a] == SumDraws(casino.play, a, runs[a])
    }

    /** One greedy trial: play `machine`, add its reward to its sum, count the play. */
    method PlayAndAdd(machine: nat)
      requires Valid() && machine < casino.machinesCount
      modifies runs, rewards
      ensures old(HoldsSums()) ==> HoldsSums()
      ensures runs[machine] == old(runs[machine]) + 1
      ensures rewards[machine] == old(rewards[machine]) + casino.play(machine, old(runs[machine]))
      ensures forall a :: 0 <= a < casino.machinesCount && a != machine ==>
                runs[a] == old(runs[a]) && rewards[a] == old(rewards[a])
      ensures SumNat(runs[..]) == old(SumNat(runs[..])) + 1
    {
      SumNatUpdate(runs[..], machine, runs[machine] + 1);
      rewards[machine] := rewards[machine] + casino.play(machine, runs[machine]);
      runs[machine] := runs[machine] + 1;
    }

    /** UCB statistics: rewards[a] is the mean of the rewards drawn from machine a. */
    ghost predicate HoldsMeans()
      reads this, runs, rewards
      requires Valid()
    {
      forall a {:trigger MeanDraws(casino.play, a, runs[a])} :: 0 <= a < casino.machinesCount ==>
        rewards[a] == MeanDraws(casino.play, a, runs[a])
    }

    /** One UCB play: draw a reward from `machine`, fold it into that machine's mean
        with the incremental update, count the play, and return the reward. */
    method PlayAndAverage(machine: nat) returns (reward: real)
      requires Valid() && machine < casino.machinesCount
      modifies runs, rewards
      ensures reward == casino.play(machine, old(runs[machine]))
      ensures old(HoldsMeans()) ==> HoldsMeans()
      ensures runs[..] == old(runs[..])[machine := old(runs[machine]) + 1]
      ensures forall a :: 0 <= a < casino.machinesCount && a != machine ==> rewards[a] == old(rewards[a])
      ensures SumNat(runs[..]) == old(SumNat(runs[..])) + 1
    {
      var k := runs[machine];
      SumNatUpdate(runs[..], machine, k + 1);
      reward := casino.play(machine, k);
      var mean := (k as real * rewards[machine] + reward) / (k + 1) as real;
      if rewards[machine] == MeanDraws(casino.play, machine, k) {
        IncrementalMean(casino.play, machine, k);
        assert mean == MeanDraws(casino.play, machine, k + 1);
      }
      rewards[machine] := mean;
      runs[machine] := k + 1;
    }
  }
}
