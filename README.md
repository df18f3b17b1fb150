# Multi-armed bandit policies, modelled in Dafny

This project models the policy engine of a small multi-armed-bandit simulator
(`algorithms.py`). A casino holds `machinesCount` slot machines. A policy spends a
budget of `initialCredit` plays on them and keeps two per-machine arrays: `runs`
(how often each machine was played) and `rewards` (their summed reward for the
greedy policies, their mean reward for the UCB policies). The policies are:

- `AbstractGlouton.do_abstract_glouton`: round-robin exploration, `testIterations`
  rounds that each play every machine once.
- `Glouton.do_glouton`: explore, then spend the remaining credit on the machine
  with the best summed reward (`np.argmax`, ties to the lowest index).
- `EpsilonGlouton.do_epsilon_glouton`: explore, then each trial exploits that
  machine when a uniform draw exceeds `epsilon`, and otherwise plays
  `np.random.randint(0, machinesCount - 1)`.
- `UCB`: a step counter `n`; each step plays the first machine never played, or
  else the first machine whose bound `mean + confidence * sqrt(2 ln n / runs)` is
  strictly largest and above 0. It updates that machine's mean incrementally.
  `do_ucb` runs `initialCredit` steps and then checks its two closing assertions.
- `ImprovedUCB`: the same loop. The machine is chosen by `np.argmax` of
  `mean + confidence * sqrt(ln(n + 1) / (runs + 1))`.

Modelling choices:

- The casino is a value `Casino(machinesCount, play)`. `play(a, k)` is the reward
  of the k-th play of machine a, so a policy asks for `play(a, runs[a])`.
- Each policy is a class that changes its arrays in place. Python inheritance
  becomes composition: every policy holds an `Algorithm` with the shared state.
  `Initialize` allocates fresh zero arrays, as `np.zeros` does.
- `np.random.random()` and `np.random.randint` become inputs: `draw(j)` and
  `pick(j)` feed exploitation trial j.
- The UCB exploration bonus (confidence times the square-root term) is an
  uninterpreted function `bonus(n, r)`. UCB applies it to `(n, runs[a])`;
  ImprovedUCB applies it to `(n + 1, runs[a] + 1)`.
- The exceptions the code can raise become `Err` results:
  - `randint` over an empty range gives `EmptyRandIntRange`.
  - Indexing the machines with UCB's `None` gives `NoneMachineIndex`.
  - The failing `runs.sum() == initialCredit` assertion gives `RunsSumMismatch`.
- `do_ucb` has two closing assertions:
  - The first one (a further step plays nothing) is proved.
  - The second one fails exactly when `initialCredit` is negative.
- ImprovedUCB keeps the exact running mean of each machine (algorithms.py:178-180),
  the same update as UCB, and its bound is `mean + confidence * sqrt(ln(n + 1) / (runs + 1))`
  (algorithms.py:171).

## Model

| member | source | states |
|---|---|---|
| Statistics.IncrementalMean | algorithms.py:135-138 | the update `(runs*mean + reward)/(runs + 1)` turns the mean of the first k rewards into the mean of the first k + 1 |
| Statistics.SumNatUpdate | algorithms.py:138 | bumping one play count changes the total play count by exactly that amount |
| Statistics.SumNatZeros | algorithms.py:14-16 | zeroed play counts sum to zero |
| Statistics.TotalDrawsStep | algorithms.py:134-138 | one more play of machine a adds exactly that play's reward to the total of all rewards drawn |
| Statistics.TotalDrawsZeros | algorithms.py:143-144 | before any play the total reward is zero |
| Statistics.Sum | algorithms.py:58 | `ndarray.sum()` of an all-zero array is 0 |
| Statistics.SumOfArmSums | algorithms.py:58 | when every entry of `rewards` is its machine's reward sum, `rewards.sum()` is the total of all rewards drawn |
| Statistics.FirstArgMax | algorithms.py:53 | `np.argmax` returns an index inside the array |
| Statistics.FirstArgMaxIsFirstMax | algorithms.py:53 | the arg-max holds the maximum, and every lower index holds a strictly smaller value (ties go to the lowest index) |
| Statistics.FirstMaxUnique | algorithms.py:78 | any index that is the first maximum is the arg-max |
| Statistics.FirstIndexOfIsFirst | algorithms.py:119-121 | the first-occurrence search finds x when present, and no earlier index holds x |
| AlgorithmBase.Algorithm.constructor | algorithms.py:7-12 | stores the casino and budget; both arrays have one zero entry per machine |
| AlgorithmBase.Algorithm.Initialize | algorithms.py:14-16 | fresh zero `runs` and `rewards` arrays of length machinesCount |
| AlgorithmBase.Algorithm.PlayAndAdd | algorithms.py:36-40 | one play of a machine: its count rises by one, the reward is added to its sum, other machines are untouched, the total count rises by one, and "rewards are sums" is preserved |
| AlgorithmBase.Algorithm.PlayAndAverage | algorithms.py:134-138 | one UCB play: returns the machine's next reward, bumps only its count, leaves other means untouched, and preserves "rewards are means" |
| GloutonPolicies.Rounds | algorithms.py:35 | `range(testIterations)` runs `testIterations` rounds when that is positive and none otherwise: the count is at least `testIterations` and is either 0 or `testIterations` |
| GloutonPolicies.ExploitCredit | algorithms.py:50-57 | the loop `while remaining_credit > 0` after `remaining_credit = initialCredit - testIterations * machines_count` runs `initialCredit - testIterations * machinesCount` times when that is positive and never otherwise |
| GloutonPolicies.RandInt | algorithms.py:86 | `randint(low, high)` yields a value in [low, high) exactly when low < high, and fails otherwise |
| GloutonPolicies.EpsChoiceCases | algorithms.py:80-86 | the choice `EpsChoice` of one trial: it exploits the best machine iff its draw exceeds epsilon; otherwise it plays an index below machinesCount - 1 (never the last machine), and with one machine it fails |
| GloutonPolicies.AllPlayableMeans | algorithms.py:79-91 | "no trial failed so far" means every one of those trials picked a machine |
| GloutonPolicies.GreedyWhenDrawsExceedEpsilon | algorithms.py:80-84 | when every draw exceeds epsilon, no trial fails and all exploitation plays go to the best machine, as in Glouton |
| GloutonPolicies.AbstractGlouton.constructor | algorithms.py:21-28 | stores the parameters over a fresh zeroed state |
| GloutonPolicies.AbstractGlouton.ExploredBest | algorithms.py:53 | the committed machine is a valid index (the first arg-max of the explored sums) |
| GloutonPolicies.AbstractGlouton.DoAbstractGlouton | algorithms.py:33-40 | after exploration every machine was played max(testIterations, 0) times, its reward entry is the sum of exactly those rewards, and the total play count is rounds * machinesCount |
| GloutonPolicies.AbstractGlouton.PlayRound | algorithms.py:36-40 | one exploration round: from every machine having `round` plays and the sum of those rewards, every machine ends with `round + 1` plays and the sum of those, and the total play count rises by machinesCount |
| GloutonPolicies.AbstractGlouton.ArgMaxExplored | algorithms.py:53 | `np.argmax(self._rewards)` right after exploration is the explored best machine |
| GloutonPolicies.Glouton.constructor | algorithms.py:45-46 | stores the parameters over a fresh zeroed state |
| GloutonPolicies.Glouton.DoGlouton | algorithms.py:48-58 | only the explored best machine gets the max(0, credit - testIterations*N) extra plays, every other machine keeps its exploration counts and sums, the total count is rounds*N + extra, and the result is the total of all rewards drawn |
| GloutonPolicies.EpsilonGlouton.constructor | algorithms.py:63-71 | stores the parameters over a fresh zeroed state |
| GloutonPolicies.EpsilonGlouton.DoEpsilonGlouton | algorithms.py:73-92 | succeeds iff all extra trials pick a machine, and otherwise fails with the empty-randint error at the first trial that cannot pick; every machine's count is its rounds plus the trials that chose it, the sums match the plays, the total count is rounds*N + trials done, and the result is the total of all rewards drawn |
| GloutonPolicies.EpsilonGlouton.Exploit | algorithms.py:74-92 | the exploitation loop, from the explored state, ends in the state above: Ok iff all extra trials ran, and Err only at a trial whose pick is empty |
| GloutonPolicies.EpsilonGlouton.ExploitTrial | algorithms.py:80-91 | one trial plays iff its choice is a machine, and then bumps exactly that machine's count and keeps the counts and sums matching the trials done; a failing trial changes nothing |
| UcbPolicies.UcbBoundsRankEqualCounts | algorithms.py:122-124 | each bound `UcbBounds` is the machine's mean plus a bonus that depends only on `n` and its play count, so two machines played equally often are ranked by their means |
| UcbPolicies.UcbSelection | algorithms.py:112-128 | the selection, when present, is a valid machine index |
| UcbPolicies.UcbSelectsUntried | algorithms.py:119-121 | if some machine was never played, UCB selects the lowest such machine |
| UcbPolicies.UcbSelectsBestBound | algorithms.py:122-128 | once all machines were played, there is no selection iff no bound exceeds 0; otherwise the selection is the first machine with the largest bound, and that bound is positive |
| UcbPolicies.ColdStartSelects | algorithms.py:119-121 | when machines 0..k-1 were played once and the rest never, UCB selects machine k |
| UcbPolicies.UCB.constructor | algorithms.py:97-106 | zero statistics and step count 0 |
| UcbPolicies.UCB.Initialize | algorithms.py:108-110 | fresh zero statistics and step count 0, with the state invariant re-established |
| UcbPolicies.UCB.Selection | algorithms.py:112-128 | the selection of the current statistics is a valid machine when present |
| UcbPolicies.UCB.MaximalRewardArg | algorithms.py:112-128 | the in-order scan with early return on an untried machine computes exactly the selection |
| UcbPolicies.UCB.DoOneStep | algorithms.py:130-140 | with the budget spent it returns (None, n) and changes nothing; with no selection it fails and changes nothing; otherwise it plays the selected machine, bumps only its count and n, returns its reward with the pre-step n, adds that reward to the total, and keeps every mean exact |
| UcbPolicies.ColdStartCoversAll | algorithms.py:119-121 | once the machines played begin with 0, 1, ..., N-1 and every play count is the number of times its machine was played, every machine has been played at least once |
| UcbPolicies.UCB.RunSteps | algorithms.py:145-146 | the step loop, from zero statistics: Ok after all initialCredit steps (none for a negative credit) with the total reward, or the no-selection failure at a step where no machine is selected; the machines played begin with the cold start 0, 1, ..., and every play count is the number of times its machine was played |
| UcbPolicies.UCB.DoUcb | algorithms.py:142-150 | fails with the sum mismatch exactly when the credit is negative; on success n equals the sum of the counts and the credit, and the result is the total reward; any other failure is a step with no selection; the first min(n, machinesCount) steps play machines 0, 1, ... in order, every play count is the number of times its machine was played, and with a credit of at least machinesCount every machine has been played at least once |
| UcbPolicies.ImprovedBoundsRankEqualCounts | algorithms.py:171 | each bound `ImprovedBounds` is the machine's mean plus a bonus that depends only on `n + 1` and its play count plus one, so two machines played equally often are ranked by their means |
| UcbPolicies.ImprovedUCB.constructor | algorithms.py:155-164 | zero statistics and step count 0 |
| UcbPolicies.ImprovedUCB.Initialize | algorithms.py:166-168 | fresh zero statistics and step count 0, with the state invariant re-established |
| UcbPolicies.ImprovedUCB.MaximalRewardArg | algorithms.py:170-171 | `np.argmax` of the bounds always names a machine |
| UcbPolicies.ImprovedUCB.MaximalRewardArgIsFirstMax | algorithms.py:170-171 | the selected machine is the lowest index holding the largest bound, with no special case for untried machines |
| UcbPolicies.ImprovedUCB.DoOneStep | algorithms.py:173-183 | with the budget spent it returns (None, n) and changes nothing; otherwise it plays the arg-max machine, bumps only its count and n, returns its reward with the pre-step n, adds that reward to the total, and keeps every mean exact |
| UcbPolicies.ImprovedUCB.DoUcb | algorithms.py:185-193 | fails exactly when the credit is negative, and then with the sum mismatch; on success n equals the sum of the counts and the credit, and the result is the total reward |

## Left out

- `casino.py` is not part of this model beyond the reward oracle. This covers its random reward generation and `real_best_choice`, the regret oracle.
- `main.py` is not part of this model. It is the driver and printing code.
- Randomness is not modelled. The draws of `np.random.random` and `np.random.randint` are inputs `draw` and `pick`, indexed by exploitation trial.
- `np.sqrt` and `np.log` are not evaluated. The confidence term is an uninterpreted `bonus`, so a `nan` or infinite bound (`log(0)`) is not modelled.
- The UCB classes' `confidence` field is folded into `bonus` rather than kept as a field.
- Floating point is not modelled. Rewards, sums and means are exact reals, and `runs` is a natural-number array where numpy keeps a float array.
- A casino with no machines is excluded at construction (`machinesCount > 0`). `np.argmax` on an empty array raises there.
- The Python `_n = None` state before `initialize` is not modelled. Every constructor ends by initialising, as the code does.
- Statistical claims (expected reward, regret, convergence) are not modelled. They are about distributions, not single runs.
- GloutonPolicies.AbstractGlouton.DoAbstractGlouton: the inner loop over the machines is a separate method (`PlayRound`), called once per round.
- GloutonPolicies.EpsilonGlouton.DoEpsilonGlouton: the exploitation loop and one trial of it are separate methods (`Exploit`, `ExploitTrial`). They run the same steps as the single Python loop.
- UcbPolicies.UCB.DoUcb: the step loop is a separate method (`RunSteps`), and the machines played are listed in a ghost out-parameter. Each play count is proved equal to the number of times its machine occurs there.
- Default arguments are not modelled: `initialCredit=10000`, `testIterations=5`, `epsilon=0.1` and `confidence=1` (algorithms.py:24-25, 45, 66-68, 100-101, 158-159). Every constructor takes all of its parameters.
- Fresh randomness across runs is not modelled. `play(a, k)` is fixed for the life of a `Casino` value. A second `do_*` call on the same policy, or a second policy on the same casino (as main.py does), replays the same rewards, where the source draws new ones (casino.py:11-12).
