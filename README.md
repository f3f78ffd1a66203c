# Recursive Bayesian estimation of operator intent: a Dafny model

This project models the discrete recursive Bayes filter of `Bayesian_Estimation.py` and the weight-pair search of `choose_best_pair.py`, and proves properties about both models.

**The filter (`RecursiveBayesianEstimation`).** The filter keeps a belief, the prior, over N hidden states. Each update does the following:

1. It checks the dimensions.
2. It regroups a flat batch of readings into N groups of M readings and divides each reading by its source's normalization value.
3. It multiplies `exp(-value / weight)` over each group to get the observation model.
4. It multiplies the rounded prior by an N×N transition matrix built from Delta.
5. It multiplies the likelihood and the transition term, then normalises, rounds and stores the result as the new prior.
6. It returns the first index of the largest entry.

**The weight-pair search.** For each observation, the search keeps every ordered pair of candidate weights that sums to 1 and maximises a likelihood, and appends those pairs to an accumulator. Afterwards it counts the accumulated pairs, reports the most frequent ones, and gives a verdict on whether that count is convincing.

Numbers are exact reals. `np.exp` and `np.round` are parameters of the estimator (`exp`, `round`). The lemmas assume only that `exp` is positive and that rounding keeps non-negative numbers non-negative. The likelihood of the pair search is a parameter as well.

A NaN or infinite numpy vector is modelled as `Vec.NonFinite`. Such a vector arises when the posterior divides by a zero sum, and it propagates through every later stage. Each exception of the source becomes an `Err` value:

- `DimensionMismatch`: the guard fires.
- `IndexOutOfRange`: an `IndexError` in the observation model.
- `NormalizationViolation`: the posterior does not sum to 1.
- `EmptyList`: `max()` of no counts.

The dimension guard at `Bayesian_Estimation.py:81-82` is modelled as written. It raises only when both conditions fail (`not A and not B`). The lemmas below prove what follows from that:

- A batch that is too long passes the guard when the source counts agree, and its extra readings are ignored.
- A batch that is too short passes the guard, then fails in the observation model with an index error.

Files:

- `results.dfy`: the `Result` type.
- `vectors.dfy`: numpy vector operations over reals (sum, product, elementwise product, matrix–vector product, first arg-max).
- `bayesian_estimation.dfy`: the filter, as specification functions with lemmas, plus the class `RecursiveBayesianEstimation`. Each method of the class is proved equal to its specification function.
- `choose_best_pair.dfy`: the pair search, as specification functions with lemmas, the accumulator class `BestPairSearch` and the counting method `GetBest`.

## Model

| member | source | states |
|---|---|---|
| Vectors.ArgMax | Bayesian_Estimation.py:73 | np.argmax: the result is a valid index, holds the largest entry, and every earlier entry is strictly smaller (the first maximum) |
| BayesianEstimation.UniformIsDistribution | Bayesian_Estimation.py:29 | the initial prior has N entries, each 1/N, and they sum to 1 |
| BayesianEstimation.TransitionMatrix | Bayesian_Estimation.py:31-32 | the conditional probability table is N×N, with 1-Delta on the diagonal and Delta/(N-1) everywhere else |
| BayesianEstimation.TransitionRowsSumToOne | Bayesian_Estimation.py:31-32 | every row of the transition matrix sums to 1, for any Delta |
| BayesianEstimation.TransitionMatrixNonNegative | Bayesian_Estimation.py:31-32 | for 0 <= Delta <= 1 every entry of the transition matrix is non-negative |
| BayesianEstimation.RoundAll | Bayesian_Estimation.py:76-77 | get_round_result rounds entry by entry and keeps the length of the vector |
| BayesianEstimation.TransitionOfConstantPrior | Bayesian_Estimation.py:59-61 | when the rounded prior is a constant vector c, the transition term is that same constant vector (rows sum to 1) |
| BayesianEstimation.TransitionNonNegative | Bayesian_Estimation.py:59-61 | a non-negative matrix applied to a non-negative prior gives a finite, non-negative transition term of length N |
| BayesianEstimation.PosteriorIsDistribution | Bayesian_Estimation.py:64-65 | for non-negative likelihood and transition with a non-zero product sum, the posterior is finite, non-negative, of length N, sums to 1 and is proportional to the product |
| BayesianEstimation.ObservationModel | Bayesian_Estimation.py:39-56 | a successful observation model has one entry per hidden state |
| BayesianEstimation.LikelihoodsAt | Bayesian_Estimation.py:48-55 | entry j of the second pass's output is the likelihood of the group that starts at reading j*M |
| BayesianEstimation.ObservationModelSucceedsExactly | Bayesian_Estimation.py:41-55 | the observation model succeeds iff the batch holds at least N*M readings and the normalization values and weights cover the M sources; otherwise it fails with an index error |
| BayesianEstimation.ObservationModelEntries | Bayesian_Estimation.py:41-56 | on success there are N entries, all positive, and entry i is the product over z < M of exp(-(obs[start of group i + z] / nv[z]) / w[z]) |
| BayesianEstimation.ObservationModelEntry | Bayesian_Estimation.py:45-52 | entry i of the observation model uses exactly readings i*M .. i*M+M-1: it is the product over z < M of exp(-(obs[i*M+z] / nv[z]) / w[z]) |
| BayesianEstimation.GroupLikelihoodFormula | Bayesian_Estimation.py:51-54 | a group's likelihood is the product of exp(-(reading / normalization) / weight) over its M readings, and it is positive |
| BayesianEstimation.GroupLikelihoodUsesOnlyItsGroup | Bayesian_Estimation.py:49-54 | a group's likelihood depends on that group's M readings alone |
| BayesianEstimation.LikelihoodsIgnoreLaterReadings | Bayesian_Estimation.py:48-55 | the likelihoods of the first k groups do not depend on readings after those groups |
| BayesianEstimation.ObservationModelIgnoresExtraReadings | Bayesian_Estimation.py:41-56 | readings past the first N*M do not change the observation model |
| BayesianEstimation.NextMultiple | Bayesian_Estimation.py:42-43 | the test `idx % M == 0` holds, between two group starts, exactly at the start of the next group |
| BayesianEstimation.ScaleGroups | Bayesian_Estimation.py:41-46 | the scaled readings of g complete groups have length g*M |
| BayesianEstimation.GroupOfScaledGroups | Bayesian_Estimation.py:44-46 | group i of the flat scaled list is group i of the batch, divided reading by reading by the normalization values |
| BayesianEstimation.PairedIsGroup | Bayesian_Estimation.py:49 | a complete slice `values_obs_model[0:M]` taken at step i is the scaled group i of the batch |
| BayesianEstimation.MultiplyGroupsStep | Bayesian_Estimation.py:49-55 | when step i of the second pass finds M values, their product of exponentials is the likelihood of hidden state i, and dropping M values leaves the list from group i+1 on |
| BayesianEstimation.ShortGroupMeansShortBatch | Bayesian_Estimation.py:49-52 | if the slice at step i < N holds fewer than M values, the batch holds fewer than N*M readings |
| BayesianEstimation.MaximumAndRecursion | Bayesian_Estimation.py:68-73 | the posterior becomes the prior whatever happens; the result is an index iff the posterior is finite and sums to exactly 1, and that index is the first maximum; otherwise the error is the normalisation violation |
| BayesianEstimation.RoundedLikelihood | Bayesian_Estimation.py:86 | the rounded likelihood has one entry per hidden state |
| BayesianEstimation.RoundedPosterior | Bayesian_Estimation.py:87-88 | the rounded posterior, computed from the rounded transition term of the prior, has length N or is the NaN vector |
| BayesianEstimation.Update | Bayesian_Estimation.py:80-96 | the update leaves a prior of length N or the NaN vector |
| BayesianEstimation.UnreadZerosAreAccepted | Bayesian_Estimation.py:45-52 | an estimator with N = 3, M = 2, normalization values [180, 25, 0] and weights [0.6, 0.4] is a valid configuration, because the entry past the M sources is never divided by |
| BayesianEstimation.DimensionMismatchOnlyWhenBothFail | Bayesian_Estimation.py:81-85 | the update raises the dimension error iff both M == len(weights) == len(normalization_value) and N*M == len(observations) fail, and then the prior is unchanged |
| BayesianEstimation.PriorKeptUnlessPosteriorComputed | Bayesian_Estimation.py:80-89 | every failure except the normalisation check leaves the prior unchanged |
| BayesianEstimation.SuccessfulUpdate | Bayesian_Estimation.py:86-96 | a successful update passed the guard and the observation model; the new prior is the rounded posterior of the rounded likelihood and rounded transition term, finite, of length N, sums to 1, and the result is its first arg-max, a state in [0, N) |
| BayesianEstimation.WellFormedBatchReachesDecision | Bayesian_Estimation.py:81-89 | with consistent dimensions the update ends either in a state or in the normalisation error |
| BayesianEstimation.OverlongBatchIsAccepted | Bayesian_Estimation.py:81-82 | when the source counts agree, a batch with more than N*M readings passes the guard, and the update equals the update on its first N*M readings |
| BayesianEstimation.ShortBatchFailsInObservationModel | Bayesian_Estimation.py:81-86 | when the source counts agree, a batch with fewer than N*M readings passes the guard, then fails with an index error and leaves the prior unchanged |
| BayesianEstimation.NonFinitePriorIsAbsorbing | Bayesian_Estimation.py:64-70 | once the prior is NaN, every update fails and the prior stays NaN |
| BayesianEstimation.UpdateKeepsBeliefNonNegative | Bayesian_Estimation.py:80-89 | with positive exp, sign-preserving rounding and a non-negative transition matrix, a non-negative belief stays non-negative after any update |
| BayesianEstimation.RecursiveBayesianEstimation.constructor | Bayesian_Estimation.py:22-37 | stores the parameters, sets the uniform prior, the transition matrix built from Delta and two decimal places |
| BayesianEstimation.RecursiveBayesianEstimation.ScaleReadings | Bayesian_Estimation.py:40-46 | the first pass fails with an index error iff a complete group exists and the normalization values do not cover M sources; otherwise it returns the scaled complete groups, dropping a trailing partial group |
| BayesianEstimation.RecursiveBayesianEstimation.GetObservationModel | Bayesian_Estimation.py:39-56 | the two loops compute exactly the declarative observation model, including its error cases |
| BayesianEstimation.RecursiveBayesianEstimation.MultiplyGroups | Bayesian_Estimation.py:47-55 | the second pass over the scaled groups computes exactly the declarative observation model |
| BayesianEstimation.RecursiveBayesianEstimation.ExponentiateGroup | Bayesian_Estimation.py:50-54 | the inner loop fails with an index error iff the slice or the weights are shorter than M; otherwise it returns the product of exp(-value / weight) over the first M values |
| BayesianEstimation.RecursiveBayesianEstimation.GetMaximumAndRecursion | Bayesian_Estimation.py:68-73 | the prior is replaced by the posterior, then the result is that of the decision function |
| BayesianEstimation.RecursiveBayesianEstimation.GetBayesianUpdate | Bayesian_Estimation.py:80-96 | the result and the new prior are those of the update function applied to the old prior |
| ChooseBestPair.PermutationsMembers | choose_best_pair.py:25 | the candidates of permutations(all_pairs, 2) are exactly the pairs of elements at two distinct positions |
| ChooseBestPair.Filter | choose_best_pair.py:25-27 | a comprehension with a condition keeps exactly the elements that satisfy it, and never more than it was given |
| ChooseBestPair.MaxScore | choose_best_pair.py:26-27 | the maximum likelihood over non-empty candidates is attained by one of them and bounds all of them |
| ChooseBestPair.MaxPairsCharacterization | choose_best_pair.py:25-27 | a pair is kept iff it is made of elements at two distinct positions of all_pairs, sums to 1, and no such pair has a larger likelihood |
| ChooseBestPair.MaxPairsAttainMaximum | choose_best_pair.py:25-27 | every kept pair's likelihood equals the maximum over the sum-to-1 candidates, and there are candidates |
| ChooseBestPair.BestPairSearch.constructor | choose_best_pair.py:53-54 | the accumulator starts empty, over the given candidate weights and likelihood |
| ChooseBestPair.BestPairSearch.FindBestPair | choose_best_pair.py:21-35 | the accumulator keeps its contents and is extended by exactly the maximising pairs for a = Angle/180 and p = Path/25, in order; the result is the accumulator |
| ChooseBestPair.BestPairSearch.AppendAll | choose_best_pair.py:32-33 | appending the pairs one by one extends the accumulator by exactly those pairs, in order |
| ChooseBestPair.FirstAppearances | choose_best_pair.py:38-43 | the keys of pair_cnt are exactly the pairs of the list |
| ChooseBestPair.FirstAppearancesDistinct | choose_best_pair.py:38-43 | no pair is a key twice |
| ChooseBestPair.CountPositive | choose_best_pair.py:38-43 | a pair is counted at least once iff it occurs in the list |
| ChooseBestPair.CountsSumToLength | choose_best_pair.py:38-43 | the counts of all keys add up to len(ls) |
| ChooseBestPair.CountPairs | choose_best_pair.py:38-43 | after the counting loop, pair_cnt has exactly the pairs of the list as keys, in first-appearance order, and each maps to its number of occurrences |
| ChooseBestPair.FirstAppearancesOrdered | choose_best_pair.py:38-43 | the keys of pair_cnt are ordered by where each first occurs in the list |
| ChooseBestPair.MaxCountIsMaximum | choose_best_pair.py:44 | max_cnt is at least every pair's count, and in a non-empty list some pair's count equals it |
| ChooseBestPair.MaxValueOfCounts | choose_best_pair.py:44 | max(pair_cnt.values()) over counted keys is the largest count |
| ChooseBestPair.ModesCharacterization | choose_best_pair.py:45 | a pair is reported iff it occurs in the list and no pair occurs more often; a non-empty list reports at least one pair |
| ChooseBestPair.ModesInFirstAppearanceOrder | choose_best_pair.py:45 | the reported pairs come in first-appearance order, each once |
| ChooseBestPair.ModesAreMostFrequent | choose_best_pair.py:44-45 | for every pair at once: it is reported iff it occurs in the list and no pair occurs more often |
| ChooseBestPair.BestReport | choose_best_pair.py:44-48 | the reported pairs are exactly the pairs of the list that no pair outnumbers, at least one, in first-appearance order; max_cnt bounds every count and is some pair's count; the verdict is "OK" iff max_cnt >= 0.45 * iteration, and "not sure" iff max_cnt < 0.45 * iteration |
| ChooseBestPair.GetBest | choose_best_pair.py:37-48 | an empty list fails, as max() of no values does; otherwise the report is the modes, max_cnt and the verdict on them |

## Left out

- Printing (`Bayesian_Estimation.py:60,90-94`, `choose_best_pair.py:46,48`) is output only and is not modelled. What `get_best` prints at `choose_best_pair.py:46,48` is returned instead, in a `Report`: `max_pairs`, `max_cnt` and the verdict as a boolean.
- IEEE-754 arithmetic is not modelled: `np.exp`, `np.round`, the exact float comparisons `== 1` and `sum(pair) == 1`, and overflow of `np.exp`. Numbers are reals, `exp` and `round` are parameters, and the comparisons are exact.
- The drivers are not part of this model: `main_example.py` and the `__main__` block of `choose_best_pair.py`, with their random observations and loops. `all_pairs` and `ls` are fields of `BestPairSearch` rather than module globals. `Angle` and `Path` are plain reals rather than one-element numpy arrays.
- `reset_array` and `np.append` are modelled as sequence concatenation. This includes the aliasing of the empty array through `self.constants[2]`, which has no observable effect.
- ChooseBestPair.BestPairSearch.FindBestPair: the result equals the accumulator's value. Python returns the same list object, so later appends show through it; that aliasing is not modelled.
- BayesianEstimation.RecursiveBayesianEstimation.constructor: requires N >= 2, M >= 1, and that the first M normalization values and the first M weights are non-zero. N = 1 divides by zero at `Bayesian_Estimation.py:31`. A zero among those first M entries is divided by at `Bayesian_Estimation.py:45` or `:52` and gives a Python `ZeroDivisionError` or a numpy `inf` that the model does not represent. Entries past the first M are never read and may be anything, zero included (`UnreadZerosAreAccepted`).
- BayesianEstimation.RecursiveBayesianEstimation.GetObservationModel: requires N >= 1 and M >= 1, which the estimator always satisfies (M = 0 would divide by zero at `Bayesian_Estimation.py:43`).
- `get_transition_model`, `get_posterior_belief` and `get_round_result` are pure expressions. They are modelled as the functions `TransitionModel`, `PosteriorBelief` and `RoundAll`/`RoundVec` rather than as methods of the class.
- The comment at `choose_best_pair.py:47` says 40%, but the code compares with 0.45. The model follows the code.
- Likelihood values, and the two exponentials and the rounding inside `likelihood_function`, are not modelled: the likelihood is an arbitrary function of the pair and the scaled observation.
