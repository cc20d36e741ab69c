# NeMo RL: verified models of its hardest logic

A few pieces of NeMo RL decide hard properties in plain code. Each is modelled here
in Dafny in the form the code has, and what the code is for is proved about it.
`dafny verify dfyconfig.toml` checks everything.

| file | what it models |
|---|---|
| `EnrichProtocol.dfy` | any number of concurrent teacher-enrichment calls: routing, locks, shielded threads, cancellation, rollback, metrics |
| `TeacherEnrichment.dfy` | the blocking half of one call: padding rows in the data plane, inference, cleanup, faults anywhere |
| `Schedule.dfy` | counters, limits and save points shared by the two loops below |
| `PreferenceTraining.dfy` | the DPO/MPO loop with its exits, checkpoints and resumes |
| `Distillation.dfy` | the distillation loop: refit flag, student and engine weights, checkpoints and resumes |
| `GenerationLog.dfy` | the log of refits, rollouts, validations and training steps, and what it should look like |
| `GenerationStaleness.dfy` | which weights and KV scales generate in a GRPO run, with dynamic sampling inside the loop |
| `DynamicSampling.dfy` | dynamic sampling: filter, accumulate, overflow, discard |
| `ConfigTree.dfy`, `ConfigMerge.dfy`, `ConfigLoad.dfy`, `ConfigPrune.dfy`, `ConfigExact.dfy`, `ConfigMinimize.dfy`, `ConfigCompare.dfy` | config inheritance, `minimize`, `minimize-check` and `compare` |
| `Gae.dfy` | masked generalized advantage estimation, general loop and fast path |
| `LogitsFilter.dfy` | top-k/top-p filtering of logits |
| `Packing.dfy` | greedy packing of conversations into rows, and splitting rows again |

`Common.dfy`, `Sequences.dfy`, `Sums.dfy` and `Numerals.dfy` hold shared datatypes, joined sequences, sums
and decimal numerals.

## Assumptions

- Arithmetic is exact: `real` for tensors, a separate value for minus infinity. The softmax
  weight is any positive increasing function of a finite logit; sorting and `topk` are any
  functions that sort and pick, so results do not depend on how ties are broken.
- `OmegaConf.merge` merges mappings recursively and replaces everything else. A key of the
  base keeps its place; new keys follow in the order of the second argument. Parsing what was
  printed gives the same tree back.
- The graph of `defaults` has no cycle: files can be ranked with parents below children. The
  code would not return on a cycle.
- The policy with its optimizer is an abstract state with a pure step function; in distillation
  generation is a function of weights and prompts, too. A restored data
  loader yields the rest of the saved epoch, which is empty if the save came after its last batch.
- A cancellation in `EnrichProtocol` is the delivery of one `CancelledError`. A fresh uuid has
  not been used in any sample id.
- The data plane upserts: reading a missing row fails, writing one creates it
  (`nemo_rl/data_plane/adapters/noop.py:177-195`).
- A refit without KV scales leaves the engine with the default 1.0, as
  `nemo_rl/models/policy/workers/megatron_policy_worker.py:3790-3799` does. `calibrate` yields the scales of
  the version it runs on.
- Deadlines, failures, random prefixes and the outcomes of generation are parameters.

## Where the code and its comments differ

The model follows the code.

- `tools/config_cli.py:253-261` drops every pruned value that is an empty container, also one
  the child wrote on purpose, so minimizing changes the meaning of some configs.
  `ConfigPrune.Lossy` names them all: `[]` over anything else, `{}` over something that is no
  mapping, and an empty container written as `_override_` where merging pops the base's marker.
  Up to Python's `==` on trees, the expansion is proved to be kept exactly when none of these occurs
  (and then keys outside lists keep their order).
- `tools/config_cli.py:273-275` compares with Python's `==`, for which 1, 1.0 and `true` are one number
  and key order does not count. A child that writes `x: 1.0` over `x: 1` loses its entry, and the
  expansion says 1 again. `ConfigExact.Inexact` names these cases: outside override sections, a value
  that `==` takes for the base's but that is another tree, such as a number of another type or a list
  with a mapping in another key order. The expansion is proved to be the very same tree exactly when
  the config is neither lossy nor inexact.
- The docstring at `tools/config_cli.py:239-240` speaks of pruning lists by index; the code
  compares whole lists.
- `nemo_rl/algorithms/opd.py:590-592` says that rollback never meets a live thread. A second
  cancellation while the call drains a thread that has begun breaks this
  (`EnrichProtocol.SecondCancellationRaces`); `EnrichProtocol.SafetyExact` proves that nothing
  else does.
- `nemo_rl/algorithms/grpo_sync.py:608-617` refits for the validation at the start without KV scales and
  lowers the flag, so with scale syncing on that validation and every rollout before the first training step
  run uncalibrated. A flag that starts lowered does the same. `GenerationStaleness.Train` proves that these are
  the only ways.
- `nemo_rl/algorithms/grpo_sync.py:249` tests the limit on generation batches with a strict `>`,
  so one more batch than configured is sampled before it raises.

## Model

| member | source | states |
|---|---|---|
| EnrichProtocol.AliasesShareGroups | nemo_rl/algorithms/opd.py:446-475 | which lock a call queues for, in every case: missing attribution, mapped agent, fallback or strict refusal, shared checkpoint, own group, unavailable group |
| EnrichProtocol.SafetyExact | nemo_rl/algorithms/opd.py:577-606 | in every run of any number of calls: all states have at most one active thread per physical group and no thread outliving its call, if and only if no cancellation reaches a call draining a begun thread |
| EnrichProtocol.CancelledOnceIsSafe | nemo_rl/algorithms/opd.py:433-437 | with at most one cancellation per call every state is safe and tidy, the rows of an active thread are all in the store and rows rolled back stay out of it |
| EnrichProtocol.SecondCancellationRaces | nemo_rl/algorithms/opd.py:597-606 | a run with two cancellations of one call: two threads on one teacher, and a rolled-back row back in the store |
| EnrichProtocol.StepKeepsInv | nemo_rl/algorithms/opd.py:577-606 | every step that abandons no thread keeps the invariant tying phases, threads, lock holders and store contents together |
| EnrichProtocol.NeverStuck | nemo_rl/algorithms/opd.py:577-606 | until every call has returned or been rolled back, some step of the program can be taken: no deadlock on the teacher locks |
| EnrichProtocol.MaximalRunsSettle | nemo_rl/algorithms/opd.py:577-606 | a run that cannot advance has settled every call |
| EnrichProtocol.RunsAreShort | nemo_rl/algorithms/opd.py:577-606 | any run of n calls has at most 8n steps that are not row writes or metric drains, so every run settles |
| EnrichProtocol.SettledStore | nemo_rl/algorithms/opd.py:577-606 | when all is settled and no cleanup failed, the store is exactly the other rows and the rows of the calls that returned |
| EnrichProtocol.MetricsConserved | nemo_rl/algorithms/opd.py:608-662 | drained and pending batches and samples add up to those of the calls that returned, in every run |
| TeacherEnrichment.PadCountIsLeast | nemo_rl/algorithms/opd.py:496-502 | the padding makes the batch divisible by the data-parallel size and is the smallest that does |
| TeacherEnrichment.PadIdInjective | nemo_rl/algorithms/opd.py:512-516 | temporary sample ids with different indices differ |
| TeacherEnrichment.PaddedBatch | nemo_rl/algorithms/opd.py:512-551 | the dispatched batch is the batch, then fewer than dp_size new distinct rows with the last row's length and tag, the total divisible by dp_size |
| TeacherEnrichment.Pad | nemo_rl/algorithms/opd.py:500-551 | clones of the last row appear under temporary ids only, also after a partial write; no old row changes |
| TeacherEnrichment.PaddingIsInert | nemo_rl/algorithms/opd.py:553-555 | inference over the padded batch, seen without the padding, is inference over the batch |
| TeacherEnrichment.EnrichSync | nemo_rl/algorithms/opd.py:477-575 | unless cleanup itself fails the id set is as before, whatever fails; old rows change only in the teacher column of the batch; a completed call scored exactly the batch; errors and fault-free success characterised |
| TeacherEnrichment.WriteBackEnriches | nemo_rl/data_plane/adapters/noop.py:170-230 | fetching rows and writing the column back, with nothing in between, is enriching them |
| TeacherEnrichment.WriteBackRestores | nemo_rl/data_plane/adapters/noop.py:170-230 | writing back after the rows were cleared brings them back with that column only, which is what an abandoned thread does |
| Schedule.StandsForBatch | nemo_rl/algorithms/dpo.py:650-655 | epoch and loader position determine the step number and the next batch; the end of an epoch is the start of the next |
| Schedule.OneMoreSave | nemo_rl/algorithms/dpo.py:745-765 | a step that saves whenever a period is due leaves no period without a save |
| PreferenceTraining.PostTrainStep | nemo_rl/algorithms/mpo.py:165-181 | the reward shift moves by one moving-average update when rewards were counted, in the loss and in the save state alike |
| PreferenceTraining.LossFn.UpdateRewardShift | nemo_rl/algorithms/loss/loss_functions.py:1873-1883 | no move when no reward was counted; otherwise, for a momentum in [0, 1], the new shift lies in every range that holds the old shift and the batch mean |
| PreferenceTraining.RewardShiftStaysInRange | nemo_rl/algorithms/mpo.py:165-181 | over a run of any length the shift never leaves a range that holds its start and every batch mean |
| PreferenceTraining.TrainOne | nemo_rl/algorithms/dpo.py:673-765 | one step advances the uncut run by one step; it saves exactly when last, due, stopped or timed out, and what it saves is the checkpoint of the uncut run there |
| PreferenceTraining.DpoTrain | nemo_rl/algorithms/dpo.py:603-916 | a run resumed anywhere continues the uncut run batch by batch, saves at every multiple of the periods and at its last step, keeps its limits, and its exit tells why |
| PreferenceTraining.TrainInSlices | nemo_rl/algorithms/dpo.py:637-655 | any sequence of slices with resumes trains the uncut run's (epoch, step, batch) sequence; a finished one has trained all of it |
| PreferenceTraining.SlicingChangesNothing | nemo_rl/algorithms/dpo.py:740-765 | two finished runs, however cut, end with the same checkpoint: policy, consumed samples, tokens, reward shift |
| Distillation.Pass | nemo_rl/algorithms/distillation.py:792-1094 | one step rolls out with the student it then trains, trains on exactly those rows, validates exactly when due, saves exactly when last, due or timed out, and what it saves is the state of the uncut run there |
| Distillation.Train | nemo_rl/algorithms/distillation.py:732-1255 | from any checkpoint and any weights in the engine: every rollout and validation uses the current student, each step trains on its own rows, refits are never redundant, rows and student continue the uncut run, limits hold, every period and the last step are saved, and the exit tells why |
| Distillation.TrainInSlices | nemo_rl/algorithms/distillation.py:744-752 | any sequence of slices with resumes trains the student on the rows of the uncut run and leaves its checkpoint; each unfinished slice makes a step, one without a deadline finishes |
| Distillation.SlicesAgree | nemo_rl/algorithms/distillation.py:1082-1150 | two finished runs, however cut, made the same number of steps on the same rows and end with the same checkpoint: student, consumed samples, valid tokens, counters |
| GenerationLog.TrainedByOwnVersion | nemo_rl/algorithms/grpo_sync.py:890-930 | in a sound log every row of a trained batch was rolled out with the very weights that training step updates, however many rollouts the batch mixes |
| GenerationStaleness.PrepareGeneration | nemo_rl/algorithms/grpo_sync.py:711-759 | after it the flag is down, an honest run has the current weights and a calibrated one the current scales in the engine, and at most one refit was made |
| GenerationStaleness.StartValidation | nemo_rl/algorithms/grpo_sync.py:604-634 | validates once, calibrated only if the flag was down and the engine already held the current scales |
| GenerationStaleness.Pass | nemo_rl/algorithms/grpo_sync.py:668-1226 | one iteration rolls out once, trains only on a batch the sampler completed from rows of the current version, validates when due, keeps the flag honest |
| GenerationStaleness.Train | nemo_rl/algorithms/grpo_sync.py:517-1609 | over a whole run generation uses the current weights if and only if the initial flag was raised, the weights were current or nothing happened; with scale syncing it uses scales of its own version if and only if the start is calibrated; no refit is redundant; the batches trained on are those dynamic sampling completes, epoch by epoch |
| GenerationStaleness.StartValidationIsUncalibrated | nemo_rl/algorithms/grpo_sync.py:604-634 | a whole run with scale syncing whose flag starts raised always has current weights; it is calibrated throughout without a validation at the start and never throughout with one |
| GenerationStaleness.RunTrainsOnWholeGroups | nemo_rl/algorithms/grpo_sync.py:890-893 | every batch a run trains on consists of whole prompt groups of one epoch |
| DynamicSampling.Sampler.Apply | nemo_rl/algorithms/grpo_sync.py:165-271 | one call is the step function: survivors appended, trivial ids and overflow discarded, limit and completion decided, logged rewards cut to size |
| DynamicSampling.SampleEpoch | nemo_rl/algorithms/grpo_sync.py:657-930 | the loop over an epoch computes the run of the step function, with carry rows aligned to ids |
| DynamicSampling.StepConserves | nemo_rl/algorithms/grpo_sync.py:209-271 | a step neither loses nor duplicates an id |
| DynamicSampling.EpochConserves | nemo_rl/algorithms/grpo_sync.py:657-666 | over an epoch every id is trained, pending or discarded as often as it was sampled |
| DynamicSampling.EachIdOnce | nemo_rl/algorithms/grpo_sync.py:209-271 | an id sampled once is in exactly one of the three places, once |
| DynamicSampling.PendingIsEverythingSince | nemo_rl/algorithms/grpo_sync.py:233-246 | the pending rows are the non-trivial samples since the last completed batch, in order |
| DynamicSampling.CompletedBatch | nemo_rl/algorithms/grpo_sync.py:247-271 | a batch completes as soon as enough non-trivial samples exist and is the first of them in sampling order; failure exactly past the limit |
| DynamicSampling.TrainsOnWholeGroups | nemo_rl/algorithms/grpo_sync.py:890-893 | with constant tags per prompt group, every batch an epoch hands to training is num_prompts whole, non-trivial groups out of those sampled |
| ConfigMerge.MergeWithOverride | tools/config_cli.py:86-100 | the merged config, and what is left of both arguments after their keys were popped |
| ConfigMerge.MergeOverrideAt | tools/config_cli.py:86-100 | key by key: a marked section replaces, an unmarked one merges, the rest of the base stays |
| ConfigLoad.LoadConfig | tools/config_cli.py:103-149 | loading terminates on every acyclic graph and computes the expansion, or the first error |
| ConfigLoad.MergeAt | tools/config_cli.py:99-100 | at every path the second config wins where it has a leaf, the first elsewhere |
| ConfigLoad.LastFileWins | tools/config_cli.py:119-149 | if the file and its ancestors have no markers and no shape clashes, each leaf is the one set by the last of them in depth-first order |
| ConfigPrune.PrunePreserves | tools/config_cli.py:234-276 | merging the pruned value gives what merging the value gives, up to Python's `==` and with keys outside lists in the same order, unless something is erased |
| ConfigPrune.LossyChanges | tools/config_cli.py:253-261 | and if something is erased, the results differ, even up to `==` |
| ConfigPrune.MinimizePreserves | tools/config_cli.py:376-406 | pruning against the raw base and merging with markers onto the expanded one gives an `==` tree if and only if the config is not lossy |
| ConfigPrune.LossyListExample | tools/config_cli.py:260 | `[]` over a list is lost |
| ConfigPrune.LossyScalarExample | tools/config_cli.py:260 | `{}` over a scalar is lost |
| ConfigPrune.LossyMarkerExample | tools/config_cli.py:86-100 | `_override_: {}` over a mapping as marker is lost |
| ConfigExact.PruneExact | tools/config_cli.py:234-276 | with nothing erased and nothing recast, merging the pruned value gives the very same tree |
| ConfigExact.InexactChanges | tools/config_cli.py:273-275 | and if something is recast, another tree |
| ConfigExact.MinimizeExact | tools/config_cli.py:376-406 | with markers, against raw and expanded base: the very same tree if and only if the config is neither lossy nor inexact |
| ConfigExact.RecastExample | tools/config_cli.py:273-275 | `x: 1.0` over `x: 1` is dropped although it is not lossy |
| ConfigPrune.PruneIdempotent | tools/config_cli.py:234-276 | pruning twice is pruning once |
| ConfigPrune.PruneIrredundant | tools/config_cli.py:234-276 | outside override sections and lists every surviving leaf is absent from or different in the base |
| ConfigMinimize.MinimizeOne | tools/config_cli.py:356-428 | the written config, whatever the cache of bases already holds |
| ConfigMinimize.Minimize | tools/config_cli.py:431-439 | each file gets its own result although they share the cache; stops at the first error |
| ConfigMinimize.MinimizePreservesExpansion | tools/config_cli.py:376-406 | rewriting the file with an inferred base keeps its expansion up to `==`, keys outside lists in order, if and only if it is not lossy, and as the very same tree if and only if it is not inexact either |
| ConfigMinimize.RebasePreservesExpansion | tools/config_cli.py:376-412 | the same two equivalences with `--base`: pruned against the raw base, expanded on top of the expanded one |
| ConfigMinimize.CheckAfterMinimize | tools/config_cli.py:506-597 | minimize-check returns 0 on what minimize wrote, inferred base |
| ConfigMinimize.CheckAfterRebase | tools/config_cli.py:506-597 | the same with `--base`, for any graph of files and even when the base is the file itself |
| ConfigCompare.Compare | tools/config_cli.py:457-482 | the report, and that it says identical exactly when the trees are `==`, for trees without empty containers whose keys are non-empty, have no dot and do not end like a list index |
| ConfigCompare.RenderedInjective | tools/config_cli.py:442-454 | different paths of such keys and indices render to different strings |
| ConfigCompare.FlattenHasLeaf | tools/config_cli.py:442-454 | no leaf is overwritten by another: each is in the flattened map under its path |
| ConfigCompare.FlattenOnlyLeaves | tools/config_cli.py:442-454 | and nothing else is |
| ConfigCompare.IdenticalMeansSameLeaves | tools/config_cli.py:457-482 | empty containers allowed: identical exactly when all leaves agree |
| ConfigCompare.IdenticalMeansEqual | tools/config_cli.py:457-482 | without them: identical exactly when the trees are `==` |
| ConfigCompare.CompareIsBlind | tools/config_cli.py:442-454 | an empty container or a dotted key makes different trees identical |
| ConfigCompare.AmbiguityIsBlindness | tools/config_cli.py:442-482 | whenever two key paths render alike, compare calls two different trees identical |
| ConfigCompare.DottedKeyIsBlind | tools/config_cli.py:442-454 | every key with a dot has such a pair |
| ConfigCompare.EmptyKeyIsBlind | tools/config_cli.py:442-454 | so has the empty key, below any other |
| ConfigCompare.IndexedKeyIsBlind | tools/config_cli.py:442-454 | so has every key that ends like a list index, whatever the index |
| ConfigCompare.BadKeyIsBlind | tools/config_cli.py:442-482 | so the condition on keys is exact: every key that breaks it occurs in a tree that compare takes for a different one |
| Gae.ComputeGaeLoop | nemo_rl/algorithms/advantage_estimator.py:641-663 | the backward loop computes, at every position, the discounted sum of TD errors of the row with masked tokens removed |
| Gae.Unroll | nemo_rl/algorithms/advantage_estimator.py:384-389 | the closed form satisfies the backward recursion |
| Gae.MaskedCarriesNext | nemo_rl/algorithms/advantage_estimator.py:397-400 | a masked position has the next valid token's advantage, or 0 if there is none |
| Gae.Telescopes | nemo_rl/algorithms/advantage_estimator.py:609-639 | without discount the sum is reward to go minus the first value |
| Gae.FastPathAgrees | nemo_rl/algorithms/advantage_estimator.py:609-639 | reverse cumulative sum and next-valid gather give the loop's advantages for every mask |
| Gae.ComputeGae | nemo_rl/algorithms/advantage_estimator.py:581-663 | advantages and returns are the same whichever path is taken |
| Gae.AdaptiveHorizon | nemo_rl/algorithms/advantage_estimator.py:499-502 | the adaptive lambda lies in [0, 1) and its horizon is max(alpha * length, 1) |
| Gae.AdaptiveAdvantageBounded | nemo_rl/algorithms/advantage_estimator.py:499-502 | with it every advantage is bounded by the largest TD error times the horizon |
| Gae.BuildTokenRewards | nemo_rl/algorithms/advantage_estimator.py:439-492 | the scalar reward lands on the last valid token, penalties on valid tokens, 0 elsewhere |
| Gae.ComputeAdvantage | nemo_rl/algorithms/advantage_estimator.py:516-579 | advantages with the policy lambda, returns with the value lambda, 0 advantage at masked tokens, one pass or two |
| Gae.UndiscountedAdvantage | nemo_rl/algorithms/advantage_estimator.py:439-492 | with gamma = lambda = 1 and no penalty a valid token's advantage is the scalar reward minus its value |
| LogitsFilter.ThresholdKeepsTopK | nemo_rl/algorithms/logits_sampling_utils.py:125-137 | comparing with the k-th largest keeps exactly the logits with fewer than k larger ones |
| LogitsFilter.TopKOnly | nemo_rl/algorithms/logits_sampling_utils.py:98-137 | keeps that set, minus infinity elsewhere |
| LogitsFilter.SortStageKeepsTopK | nemo_rl/algorithms/logits_sampling_utils.py:199-213 | the top-k stage of the sort path keeps the same set, ties included |
| LogitsFilter.MaskIsNucleus | nemo_rl/algorithms/logits_sampling_utils.py:199-224 | the mask is a suffix of the sorted order with mass at least top_p that loses it without its smallest element, also after top-k with renormalised probabilities |
| LogitsFilter.MaskIsSmallest | nemo_rl/algorithms/logits_sampling_utils.py:215-224 | no selection of fewer tokens reaches top_p |
| LogitsFilter.RowMaskAt | nemo_rl/algorithms/logits_sampling_utils.py:226-232 | scattered back, a token is kept exactly when its sorted position is in the nucleus, and then it is in the top k |
| LogitsFilter.RowMaskNonEmpty | nemo_rl/algorithms/logits_sampling_utils.py:221-222 | some token is always kept |
| LogitsFilter.RowMaskKeepsLargest | nemo_rl/algorithms/logits_sampling_utils.py:199-232 | a kept logit is at least as large as a dropped one |
| LogitsFilter.FilterRow | nemo_rl/algorithms/logits_sampling_utils.py:195-232 | the in-place fills and scatters return each kept logit at its own index and minus infinity elsewhere |
| LogitsFilter.ApplyTopKTopP | nemo_rl/algorithms/logits_sampling_utils.py:140-247 | each row of the batch is filtered on its own, for every chunk size; errors characterised |
| Packing.SegmentTokens | examples/converters/pack_megatron_sft_jsonl.py:82-86 | the padded size: the least multiple of the granularity that holds the tokens |
| Packing.GreedyIsOptimal | examples/converters/pack_megatron_sft_jsonl.py:72-106 | a packing that never closes a row early has no more rows than any order-preserving packing |
| Packing.Place | examples/converters/pack_megatron_sft_jsonl.py:74-104 | one conversation placed keeps the rows greedy |
| Packing.PackConversations | examples/converters/pack_megatron_sft_jsonl.py:55-106 | all messages in order, rows over capacity only if a single conversation, fewest rows possible; the rows before an error, and which error |
| Packing.SplitRow | nemo_rl/data/megatron_sft_packed.py:142-157 | the loop computes the split at system messages |
| Packing.SplitRecovers | nemo_rl/data/megatron_sft_packed.py:142-157 | splitting a packed row gives back its conversations, if each has its one system message first |

## Left out

- Floating-point rounding, NaN, overflow and dtypes; rows whose logits are all minus infinity.
- The KL penalty and whitening of advantages: the penalty is a parameter of `Gae.BuildTokenRewards`, whitening is not part of the model.
- LogitsFilter.MaskIsNucleus: for top_p strictly between 0 and 1, which with 1 is the documented range; at 1 no top-p filtering takes place.
- LogitsFilter.ApplyTopKTopP: negative chunk sizes and an empty vocabulary are not modelled; the gradient of the autograd wrapper is not part of the model.
- `${...}` interpolation, YAML text, path resolution and list items of `defaults` that are not strings.
- ConfigMinimize.Minimize: the files are not rewritten between two of them, so a base that is itself minimized in place in the same command is not modelled.
- `_ensure_defaults_relative` on a config that still has a `defaults` key: its only callers pop that key first.
- ConfigCompare.Compare: the three lists of the report are sets and maps, without their sorted order and text.
- GRPO, GDPO and Reinforce++ baselines, rewards and loss functions: outcomes of generation are parameters.
- GenerationStaleness.Train: checkpoints of a GRPO run are not modelled; a resumed run is one with other starting counters and flag.
- DPO validation and the metric attributes copied into the save states of both loops; `nemo_rl/algorithms/rm.py`, whose loop repeats the DPO loop.
- EnrichProtocol.NeverStuck: the order in which waiting calls get a lock is any order; first come first served is asyncio's promise.
- EnrichProtocol.MetricsConserved: the wall-clock sums, payload tokens and routing diagnostics are not modelled.
- TeacherEnrichment.EnrichSync: the other calls that use the data plane at the same time are part of `EnrichProtocol`, not of this method.
- Ray actors, placement, telemetry, timers, tokenizers, setup functions and argument parsing.
