/** The greedy-after-exploration policies (`AbstractGlouton`, `Glouton`,
    `EpsilonGlouton`).  Here `rewards[a]` holds the SUM of the rewards drawn from
    machine a, not their mean. */
module GloutonPolicies {
  import opened Statistics
  import opened AlgorithmBase

  /** Exploration rounds actually played: `range(testIterations)` is empty when
      testIterations is not positive. */
  function Rounds(testIterations: int): (rounds: nat)
    ensures rounds >= testIterations && (rounds == 0 || rounds == testIterations)
  {
    if testIterations > 0 then testIterations else 0
  }

  /** Number of exploitation trials: the credit left after subtracting
      testIterations * machinesCount, or none when that is not positive. */
  function ExploitCredit(initialCredit: int, testIterations: int, machinesCount: nat): (extra: nat)
    ensures extra >= initialCredit - testIterations * machinesCount
    ensures extra == 0 || extra == initialCredit - testIterations * machinesCount
  {
    var remaining := initialCredit - testIterations * machinesCount;
    if remaining > 0 then remaining else 0
  }

  /** Per-machine reward sums after `rounds` round-robin rounds. */
  function ExploredSums(play: Oracle, machinesCount: nat, rounds: nat): seq<real>
  {
    seq(machinesCount, (a: int) requires 0 <= a => SumDraws(play, a, rounds))
  }

  /** `np.random.randint(low, high)` fed with the raw draw `raw`: a value in
      [low, high), or the ValueError numpy raises when that range is empty. */
  function RandInt(low: nat, high: int, raw: nat): (r: Option<nat>)
    ensures r.Some? <==> low < high
    ensures r.Some? ==> low <= r.value < high
  {
    if low < high then Some(low + raw % (high - low)) else None
  }

  /** The machine one exploitation trial of epsilon-greedy plays, given its uniform
      draw u and its raw random index; None when randint fails. */
  function EpsChoice(machinesCount: nat, best: nat, epsilon: real, u: real, raw: nat): Option<nat>
  {
    if u > epsilon then Some(best) else RandInt(0, machinesCount - 1, raw)
  }

  /** How many of the first `count` trials play machine `arm`; trial j uses the
      uniform draw draw(j) and the raw random index pick(j). */
  ghost function Plays(machinesCount: nat, best: nat, epsilon: real,
                       draw: nat -> real, pick: nat -> nat, count: nat, arm: nat): nat
  {
    if count == 0 then 0
    else Plays(machinesCount, best, epsilon, draw, pick, count - 1, arm)
         + (if EpsChoice(machinesCount, best, epsilon, draw(count - 1), pick(count - 1)) == Some(arm) then 1 else 0)
  }

  /** Every machine's play count is its exploration rounds plus the number of the
      first `count` trials that chose it. */
  ghost predicate CountsAfterTrials(runs: seq<nat>, best: nat, epsilon: real,
                                    draw: nat -> real, pick: nat -> nat, rounds: nat, count: nat)
  {
    forall a :: 0 <= a < |runs| ==> runs[a] == rounds + Plays(|runs|, best, epsilon, draw, pick, count, a)
  }

  /** A trial that plays machine m, the machine its choice names, moves the counts on
      by that one trial. */
  lemma CountsAfterTrial(before: seq<nat>, after: seq<nat>, best: nat, epsilon: real,
                         draw: nat -> real, pick: nat -> nat, rounds: nat, count: nat, m: nat)
    requires m < |before| == |after|
    requires forall a :: 0 <= a < |before| ==> after[a] == before[a] + (if a == m then 1 else 0)
    requires EpsChoice(|before|, best, epsilon, draw(count), pick(count)) == Some(m)
    requires CountsAfterTrials(before, best, epsilon, draw, pick, rounds, count)
    ensures CountsAfterTrials(after, best, epsilon, draw, pick, rounds, count + 1)
  {
  }

  /** Greedy statistics as values: every reward entry is the sum of the rewards drawn
      from its machine. */
  ghost predicate SumsMatch(play: Oracle, runs: seq<nat>, rewards: seq<real>)
  {
    |rewards| == |runs| && forall a :: 0 <= a < |runs| ==> rewards[a] == SumDraws(play, a, runs[a])
  }

  /** One more play of machine m, added to its sum, keeps the sums matching. */
  lemma SumsMatchAfterPlay(play: Oracle, runs: seq<nat>, rewards: seq<real>,
                           runs': seq<nat>, rewards': seq<real>, m: nat)
    requires SumsMatch(play, runs, rewards) && m < |runs| == |runs'| == |rewards'|
    requires forall a :: 0 <= a < |runs| && a != m ==> runs'[a] == runs[a] && rewards'[a] == rewards[a]
    requires runs'[m] == runs[m] + 1 && rewards'[m] == rewards[m] + play(m, runs[m])
    ensures SumsMatch(play, runs', rewards')
  {
  }

  /** None of the first `count` trials raises. */
  ghost predicate AllPlayable(machinesCount: nat, best: nat, epsilon: real,
                              draw: nat -> real, pick: nat -> nat, count: nat)
  {
    count == 0 ||
    (AllPlayable(machinesCount, best, epsilon, draw, pick, count - 1) &&
     EpsChoice(machinesCount, best, epsilon, draw(count - 1), pick(count - 1)).Some?)
  }

  /** AllPlayable says that every one of the first `count` trials picks a machine. */
  lemma {:induction false} AllPlayableMeans(machinesCount: nat, best: nat, epsilon: real,
                                            draw: nat -> real, pick: nat -> nat, count: nat)
    ensures AllPlayable(machinesCount, best, epsilon, draw, pick, count) <==>
            forall j: nat :: j < count ==> EpsChoice(machinesCount, best, epsilon, draw(j), pick(j)).Some?
  {
    if count > 0 {
      AllPlayableMeans(machinesCount, best, epsilon, draw, pick, count - 1);
    }
  }

  /** A trial exploits the fixed best machine exactly when its draw exceeds epsilon;
      otherwise the random index lies in [0, machinesCount - 1), so the last machine
      is never drawn, and with a single machine the draw raises. */
  lemma EpsChoiceCases(machinesCount: nat, best: nat, epsilon: real, u: real, raw: nat)
    ensures u > epsilon ==> EpsChoice(machinesCount, best, epsilon, u, raw) == Some(best)
    ensures u <= epsilon ==> (EpsChoice(machinesCount, best, epsilon, u, raw).Some? <==> machinesCount >= 2)
    ensures u <= epsilon && EpsChoice(machinesCount, best, epsilon, u, raw).Some? ==>
              EpsChoice(machinesCount, best, epsilon, u, raw).value < machinesCount - 1
  {
  }

  /** When every draw exceeds epsilon (as with epsilon = 0 and non-zero draws), every
      trial plays the best machine: epsilon-greedy then makes exactly Glouton's plays. */
  lemma {:induction false} GreedyWhenDrawsExceedEpsilon(machinesCount: nat, best: nat, epsilon: real,
                                                        draw: nat -> real, pick: nat -> nat, count: nat)
    requires forall j: nat :: j < count ==> draw(j) > epsilon
    ensures AllPlayable(machinesCount, best, epsilon, draw, pick, count)
    ensures forall arm: nat :: Plays(machinesCount, best, epsilon, draw, pick, count, arm)
                               == if arm == best then count else 0
  {
    if count > 0 {
      GreedyWhenDrawsExceedEpsilon(machinesCount, best, epsilon, draw, pick, count - 1);
    }
  }

  /** Round-robin exploration, shared by both greedy policies. */
  class AbstractGlouton {
    const algo: Algorithm
    const testIterations: int

    constructor (casino: Casino, initialCredit: int, testIterations: int)
      requires casino.machinesCount > 0
      ensures fresh(algo) && algo.Valid()
      ensures algo.casino == casino && algo.initialCredit == initialCredit
      ensures this.testIterations == testIterations
      ensures forall a :: 0 <= a < casino.machinesCount ==> algo.runs[a] == 0 && algo.rewards[a] == 0.0
    {
      algo := new Algorithm(casino, initialCredit);
      this.testIterations := testIterations;
    }

    /** The machine exploitation commits to: the first arg-max of the explored sums. */
    ghost function ExploredBest(): (best: nat)
      requires algo.casino.machinesCount > 0
      ensures best < algo.casino.machinesCount
    {
      FirstArgMax(ExploredSums(algo.casino.play, algo.casino.machinesCount, Rounds(testIterations)))
    }

    /** `do_abstract_glouton`: zero the statistics, then play every machine once per
        round for testIterations rounds. */
    method DoAbstractGlouton()
      requires algo.Valid()
      modifies algo
      ensures algo.Valid() && fresh(algo.runs) && fresh(algo.rewards)
      ensures forall a :: 0 <= a < algo.casino.machinesCount ==>
                algo.runs[a] == Rounds(testIterations) &&
                algo.rewards[a] == SumDraws(algo.casino.play, a, Rounds(testIterations))
      ensures SumNat(algo.runs[..]) == Rounds(testIterations) * algo.casino.machinesCount
    {
      algo.Initialize();
      SumNatZeros(algo.runs[..]);
      var round := 0;
      while round < testIterations
        modifies algo.runs, algo.rewards
        invariant 0 <= round <= Rounds(testIterations)
        invariant forall a :: 0 <= a < algo.casino.machinesCount ==>
                    algo.runs[a] == round && algo.rewards[a] == SumDraws(algo.casino.play, a, round)
        invariant SumNat(algo.runs[..]) == round * algo.casino.machinesCount
      {
        PlayRound(round);
        round := round + 1;
      }
    }

    /** One round of exploration: play every machine once, in index order. */
    method PlayRound(round: nat)
      requires algo.Valid()
      requires forall a :: 0 <= a < algo.casino.machinesCount ==>
                 algo.runs[a] == round && algo.rewards[a] == SumDraws(algo.casino.play, a, round)
      requires SumNat(algo.runs[..]) == round * algo.casino.machinesCount
      modifies algo.runs, algo.rewards
      ensures forall a :: 0 <= a < algo.casino.machinesCount ==>
                algo.runs[a] == round + 1 && algo.rewards[a] == SumDraws(algo.casino.play, a, round + 1)
      ensures SumNat(algo.runs[..]) == (round + 1) * algo.casino.machinesCount
    {
      var machinesCount := algo.casino.machinesCount;
      var machineIndex := 0;
      while machineIndex < machinesCount
        modifies algo.runs, algo.rewards
        invariant 0 <= machineIndex <= machinesCount
        invariant forall a :: 0 <= a < machineIndex ==>
                    algo.runs[a] == round + 1 && algo.rewards[a] == SumDraws(algo.casino.play, a, round + 1)
        invariant forall a :: machineIndex <= a < machinesCount ==>
                    algo.runs[a] == round && algo.rewards[a] == SumDraws(algo.casino.play, a, round)
        invariant SumNat(algo.runs[..]) == round * machinesCount + machineIndex
      {
        algo.PlayAndAdd(machineIndex);
        assert algo.rewards[machineIndex] == SumDraws(algo.casino.play, machineIndex, round + 1);
        machineIndex := machineIndex + 1;
      }
      assert round * machinesCount + machinesCount == (round + 1) * machinesCount;
    }

    /** `np.argmax(self._rewards)` right after exploration. */
    method ArgMaxExplored() returns (best: nat)
      requires algo.Valid()
      requires forall a :: 0 <= a < algo.casino.machinesCount ==>
                 algo.rewards[a] == SumDraws(algo.casino.play, a, Rounds(testIterations))
      ensures best == ExploredBest()
    {
      assert algo.rewards[..] == ExploredSums(algo.casino.play, algo.casino.machinesCount, Rounds(testIterations));
      best := FirstArgMax(algo.rewards[..]);
    }
  }

  /** Pure greedy: after exploration, spend all remaining credit on one machine. */
  class Glouton {
    const parent: AbstractGlouton

    constructor (casino: Casino, testIterations: int, initialCredit: int)
      requires casino.machinesCount > 0
      ensures fresh(parent) && fresh(parent.algo) && parent.algo.Valid()
      ensures parent.algo.casino == casino && parent.algo.initialCredit == initialCredit
      ensures parent.testIterations == testIterations
      ensures forall a :: 0 <= a < casino.machinesCount ==>
                parent.algo.runs[a] == 0 && parent.algo.rewards[a] == 0.0
    {
      parent := new AbstractGlouton(casino, initialCredit, testIterations);
    }

    /** `do_glouton`: exploration, then ExploitCredit plays of the explored best
        machine; returns the sum of the rewards array. */
    method DoGlouton() returns (total: real)
      requires parent.algo.Valid()
      modifies parent.algo
      ensures parent.algo.Valid() && fresh(parent.algo.runs) && fresh(parent.algo.rewards)
      ensures var algo := parent.algo;
              var extra := ExploitCredit(algo.initialCredit, parent.testIterations, algo.casino.machinesCount);
              (forall a :: 0 <= a < algo.casino.machinesCount ==>
                 algo.runs[a] == Rounds(parent.testIterations) + (if a == parent.ExploredBest() then extra else 0)) &&
              algo.HoldsSums() &&
              SumNat(algo.runs[..]) == Rounds(parent.testIterations) * algo.casino.machinesCount + extra &&
              total == TotalDraws(algo.casino.play, algo.runs[..])
    {
      parent.DoAbstractGlouton();
      var algo := parent.algo;
      var machinesCount := algo.casino.machinesCount;
      var rounds := Rounds(parent.testIterations);
      ghost var extra := ExploitCredit(algo.initialCredit, parent.testIterations, machinesCount);
      var remainingPlayCredit := algo.initialCredit - parent.testIterations * machinesCount;
      ghost var initialRemaining := remainingPlayCredit;
      var bestMachine := parent.ArgMaxExplored();
      ghost var played: nat := 0;
      while remainingPlayCredit > 0
        modifies algo.runs, algo.rewards
        invariant played <= extra
        invariant remainingPlayCredit == initialRemaining - played
        invariant forall a :: 0 <= a < machinesCount ==>
                    algo.runs[a] == rounds + (if a == bestMachine then played else 0)
        invariant algo.HoldsSums()
        invariant SumNat(algo.runs[..]) == rounds * machinesCount + played
      {
        algo.PlayAndAdd(bestMachine);
        remainingPlayCredit := remainingPlayCredit - 1;
        played := played + 1;
      }
      SumOfArmSums(algo.casino.play, algo.rewards[..], algo.runs[..]);
      total := Sum(algo.rewards[..]);
    }
  }

  /** Epsilon-greedy: after exploration each trial exploits the explored best machine
      when the uniform draw exceeds epsilon, and otherwise plays a random index. */
  class EpsilonGlouton {
    const parent: AbstractGlouton
    const epsilon: real

    constructor (casino: Casino, initialCredit: int, testIterations: int, epsilon: real)
      requires casino.machinesCount > 0
      ensures fresh(parent) && fresh(parent.algo) && parent.algo.Valid()
      ensures parent.algo.casino == casino && parent.algo.initialCredit == initialCredit
      ensures parent.testIterations == testIterations && this.epsilon == epsilon
      ensures forall a :: 0 <= a < casino.machinesCount ==>
                parent.algo.runs[a] == 0 && parent.algo.rewards[a] == 0.0
    {
      parent := new AbstractGlouton(casino, initialCredit, testIterations);
      this.epsilon := epsilon;
    }

    /** The machine trial j plays (None when its randint raises). */
    ghost function TrialChoice(draw: nat -> real, pick: nat -> nat, j: nat): Option<nat>
      requires parent.algo.casino.machinesCount > 0
    {
      EpsChoice(parent.algo.casino.machinesCount, parent.ExploredBest(), epsilon, draw(j), pick(j))
    }

    /** `do_epsilon_glouton`, with draw(j) standing for the j-th exploitation trial's
        `np.random.random()` and pick(j) for its raw `np.random.randint` value. */
    method DoEpsilonGlouton(draw: nat -> real, pick: nat -> nat) returns (r: Result<real>, ghost done: nat)
      requires parent.algo.Valid()
      modifies parent.algo
      ensures parent.algo.Valid() && fresh(parent.algo.runs) && fresh(parent.algo.rewards)
      ensures var algo := parent.algo;
              var extra := ExploitCredit(algo.initialCredit, parent.testIterations, algo.casino.machinesCount);
              done <= extra &&
              AllPlayable(algo.casino.machinesCount, parent.ExploredBest(), epsilon, draw, pick, done) &&
              (r.Ok? <==> done == extra) &&
              (r.Err? ==> r.failure == EmptyRandIntRange && TrialChoice(draw, pick, done).None?) &&
              (forall a :: 0 <= a < algo.casino.machinesCount ==>
                 algo.runs[a] == Rounds(parent.testIterations) + Plays(algo.casino.machinesCount, parent.ExploredBest(), epsilon, draw, pick, done, a)) &&
              algo.HoldsSums() &&
              SumNat(algo.runs[..]) == Rounds(parent.testIterations) * algo.casino.machinesCount + done &&
              (r.Ok? ==> r.value == TotalDraws(algo.casino.play, algo.runs[..]))
    {
      parent.DoAbstractGlouton();
      var bestMachineIndex := parent.ArgMaxExplored();
      r, done := Exploit(bestMachineIndex, draw, pick);
    }

    /** The statistics after `count` exploitation trials committed to machine `best`:
        every machine has its exploration rounds plus the trials that chose it, and
        the reward sums match the plays. */
    ghost predicate Exploited(best: nat, draw: nat -> real, pick: nat -> nat, count: nat)
      reads parent.algo, parent.algo.runs, parent.algo.rewards
      requires parent.algo.Valid()
    {
      var algo := parent.algo;
      var machinesCount := algo.casino.machinesCount;
      var rounds := Rounds(parent.testIterations);
      AllPlayable(machinesCount, best, epsilon, draw, pick, count) &&
      CountsAfterTrials(algo.runs[..], best, epsilon, draw, pick, rounds, count) &&
      SumsMatch(algo.casino.play, algo.runs[..], algo.rewards[..]) &&
      SumNat(algo.runs[..]) == rounds * machinesCount + count
    }

    /** The exploitation loop of `do_epsilon_glouton`, started from the statistics
        exploration leaves and committed to machine `best`. */
    method Exploit(best: nat, draw: nat -> real, pick: nat -> nat) returns (r: Result<real>, ghost done: nat)
      requires parent.algo.Valid() && best < parent.algo.casino.machinesCount
      requires Exploited(best, draw, pick, 0)
      modifies parent.algo.runs, parent.algo.rewards
      ensures var algo := parent.algo;
              var machinesCount := algo.casino.machinesCount;
              var extra := ExploitCredit(algo.initialCredit, parent.testIterations, machinesCount);
              done <= extra &&
              Exploited(best, draw, pick, done) &&
              (r.Ok? <==> done == extra) &&
              (r.Err? ==> r.failure == EmptyRandIntRange &&
                          EpsChoice(machinesCount, best, epsilon, draw(done), pick(done)).None?) &&
              (r.Ok? ==> r.value == TotalDraws(algo.casino.play, algo.runs[..]))
    {
      var algo := parent.algo;
      var machinesCount := algo.casino.machinesCount;
      ghost var extra := ExploitCredit(algo.initialCredit, parent.testIterations, machinesCount);
      var remainingCredit := algo.initialCredit - parent.testIterations * machinesCount;
      ghost var initialRemaining := remainingCredit;
      var trial: nat := 0;
      while remainingCredit > 0
        modifies algo.runs, algo.rewards
        invariant remainingCredit == initialRemaining - trial
        invariant trial <= extra
        invariant Exploited(best, draw, pick, trial)
      {
        var played := ExploitTrial(best, draw, pick, trial);
        if !played {
          r, done := Err(EmptyRandIntRange), trial;
          return;
        }
        remainingCredit := remainingCredit - 1;
        trial := trial + 1;
      }
      SumOfArmSums(algo.casino.play, algo.rewards[..], algo.runs[..]);
      r, done := Ok(Sum(algo.rewards[..])), trial;
    }

    /** One exploitation trial: exploit `best` when the draw exceeds epsilon, otherwise
        play `np.random.randint(0, machinesCount - 1)`; `played` is false when that
        randint raises, in which case nothing is played. */
    method ExploitTrial(best: nat, draw: nat -> real, pick: nat -> nat, trial: nat) returns (played: bool)
      requires parent.algo.Valid() && best < parent.algo.casino.machinesCount
      requires Exploited(best, draw, pick, trial)
      modifies parent.algo.runs, parent.algo.rewards
      ensures played <==> EpsChoice(parent.algo.casino.machinesCount, best, epsilon, draw(trial), pick(trial)).Some?
      ensures played ==> Exploited(best, draw, pick, trial + 1)
      ensures played ==> var machine := EpsChoice(parent.algo.casino.machinesCount, best, epsilon, draw(trial), pick(trial)).value;
                         forall a :: 0 <= a < parent.algo.casino.machinesCount ==>
                           parent.algo.runs[a] == old(parent.algo.runs[a]) + (if a == machine then 1 else 0)
      ensures !played ==> Exploited(best, draw, pick, trial) && unchanged(parent.algo.runs, parent.algo.rewards)
    {
      var algo := parent.algo;
      var machinesCount := algo.casino.machinesCount;
      var machine: nat;
      if draw(trial) > epsilon {
        machine := best;
      } else {
        var randomIndex := RandInt(0, machinesCount - 1, pick(trial));
        if randomIndex.None? {
          return false;
        }
        machine := randomIndex.value;
      }
      assert EpsChoice(machinesCount, best, epsilon, draw(trial), pick(trial)) == Some(machine);
      ghost var before, sums := algo.runs[..], algo.rewards[..];
      algo.PlayAndAdd(machine);
      CountsAfterTrial(before, algo.runs[..], best, epsilon, draw, pick, Rounds(parent.testIterations), trial, machine);
      SumsMatchAfterPlay(algo.casino.play, before, sums, algo.runs[..], algo.rewards[..], machine);
      played := true;
    }
  }
}
