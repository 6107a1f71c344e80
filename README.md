# Class schedule and exemplar budget of the incremental trainer

This project models the bookkeeping at the core of `trainer/trainer.py`. That file holds the class-incremental trainers: a `Trainer` that learns new classes group by group, and a `Distiller` that shares the same setup. The bookkeeping covered here:

- **the release order** `all_classes`: the class ids `0 .. classes-1`, sorted in descending order, then shuffled once from the seed. Classes are consumed from the tail with `pop()`;
- **class reveal** (`increment_classes`, `increment_classes_2`, `Distiller.increment_classes`): the two `Trainer` reveals send each popped id as `add_class` to the datasets behind the train, ideal and test iterators; `Distiller.increment_classes` sends each id it reads to the one iterator it is given;
- **the exemplar budget** (`limit_class`, `setup_training`): every class in `left_over` gets `int(memory_budget / len(left_over))` exemplars, by plain truncation or by herding. Each limited class is recorded once in `older_classes`;
- **the per-batch split** inside `Trainer.train`: samples labelled in `[0, 50)` are old classes and the rest are new. The new-class labels become one-hot target rows.

The datasets are external collaborators. Each is modelled as a `ClassDataset` object whose ghost `log` records, in order, the requests it receives. The trainers are classes with the fields the source updates in place: `allClasses`, `leftOver` and `olderClasses`. Their methods loop exactly as the Python does. Each method's `ensures` ties the new state and the dataset logs to specification functions: `Popped`, `AddCalls`, `AddThenHide`, `SetupCalls`, `RememberAll` and `LookupRange`. Lemmas prove what those functions mean.

Python exceptions are modelled as results, not as preconditions:
- `pop()` on an empty list and an out-of-range index each return `ok == false`. The requests sent before the exception stay in the logs.
- `s[t]` with a negative `t` counts from the end, as in Python.

Modules, one per file:
- `basics.dfy`: `Option`, `Distinct`, and lemmas about duplicate-free sequences.
- `datasets.dfy`: the dataset collaborator and the requests it receives.
- `schedule.dfy`: the release order, `random.shuffle`, `pop()` and Python indexing.
- `budget.dfy`: truncating division, the per-class share, and `older_classes` updates.
- `trainers.dfy`: the `Trainer` and `Distiller` classes.
- `batch.dfy`: the old/new partition and the one-hot rows.
- `scenarios.dfy`: client runs that combine the operations over several cycles.

Points of `trainer/trainer.py` that the model reproduces as written:
- **`left_over` is never cleared.** It is assigned only at line 34, in the constructor, and appended to only at line 104. Nothing resets it between setup phases, so the divisor `len(left_over)` at line 143 counts every class revealed so far. `Budget.ShareShrinks` proves that, for a non-negative budget, the per-class share can therefore only shrink. (For a negative budget the truncated share grows toward zero instead.)
- **No division by zero.** The division at line 143 sits inside the loop body over `left_over`, so an empty `left_over` never reaches it: no request is sent and nothing is divided.
- **Truncation toward zero.** `int(a / b)` truncates toward zero, which differs from floor division for a negative budget. `Budget.TruncDiv` models the truncation.
- **`increment_classes_2` limits by loop index.** It calls `limit_class(temp, 0)` on the ideal and test datasets, where `temp` is the loop index in `[start, end)`, not the popped id. The model records exactly that, and `Trainers.AddThenHideAt` states it.

Some lemmas are proof helpers and have no row below. `Schedule.PopStep`, `Trainers.AddThenHideAppend` and `Budget.SetupStep` each unfold one of the recursive definitions by one step. `Budget.DivBounds` and `Budget.MulMonotone` are arithmetic facts used by `Budget.TruncDiv` and `Budget.ShareShrinks`. `Schedule.PopCount` is a plain definition with no row, because `Trainers.Trainer.IncrementClasses` and `Trainers.Trainer.IncrementClasses2` state the pop count against `all_classes`.

## Model

| member | source | states |
|---|---|---|
| Trainers.Trainer.constructor | trainer/trainer.py:24-38 | `all_classes` is a permutation of the ids `0 .. classes-1`; `left_over` and `older_classes` start empty; the datasets and settings are those given |
| Trainers.Distiller.constructor | trainer/trainer.py:24-38 | the distiller inherits the same setup: a permutation of `0 .. classes-1`, with empty `left_over` and `older_classes` |
| Schedule.Descending | trainer/trainer.py:32-33 | `list(range(n))` sorted in reverse has length n, holds exactly the ids `0 .. n-1`, and is strictly decreasing |
| Schedule.Shuffle | trainer/trainer.py:37-38 | the seeded Fisher-Yates shuffle (draw `j` in `[0, i]` for each i from the top down) returns a permutation of its input |
| Schedule.InitialOrder | trainer/trainer.py:32-38 | the shuffled descending ids form a class permutation: length n, no duplicates, every id in `[0, n)` present |
| Schedule.PoppedAt | trainer/trainer.py:99 | the i-th popped id is the i-th from the tail, so ids leave in the reverse of their order in the list |
| Schedule.PoppedIsTail | trainer/trainer.py:98-99 | c pops take exactly the ids of the last c positions, each once |
| Schedule.PoppedIsReversed | trainer/trainer.py:98-99 | a list read back to front has the same multiset of ids |
| Schedule.PoppedFresh | trainer/trainer.py:98-99 | from a duplicate-free list, the popped ids are duplicate-free and none of them is still in the list |
| Trainers.Trainer.IncrementClasses | trainer/trainer.py:96-104 | pops `step_size` ids from the tail, leaving the prefix unchanged; appends them to `left_over` in pop order; sends each to `add_class` on train, ideal and test; succeeds exactly when enough ids remain, and otherwise handles every remaining id before `pop()` raises; `classGroup` does not affect which ids are taken; the no-duplicates invariant is kept |
| Trainers.Trainer.RevealOne | trainer/trainer.py:99-104 | one loop iteration: the last id moves from `all_classes` to `left_over` and is added to each of the three datasets |
| Datasets.AddCallsAt | trainer/trainer.py:100-102 | the requests sent for the popped ids are one `add_class` per id, in pop order |
| Datasets.AddCallsMultiplicity | trainer/trainer.py:100-102 | each id is requested as often as it was popped, and only `add_class` requests are sent |
| Datasets.AddCallsExactlyOnce | trainer/trainer.py:100-102 | for duplicate-free popped ids, each popped id is added exactly once per dataset, and no other id is added |
| Trainers.Trainer.IncrementClasses2 | trainer/trainer.py:106-116 | pops `end - start` ids (fewer, with `ok` false, when the list runs out); train gets `add_class(id)`; ideal and test get `add_class(id)` followed by `limit_class(temp, 0)`; `left_over` and `older_classes` are unchanged |
| Trainers.Trainer.RevealHidden | trainer/trainer.py:108-115 | one loop iteration of `increment_classes_2` for loop index `temp` |
| Trainers.AddThenHideAt | trainer/trainer.py:108-115 | the ideal and test datasets receive `2 * (end - start)` requests: entry `2i` adds the i-th popped id, and entry `2i+1` limits class `start + i` (the loop index, whatever id was popped) to zero |
| Trainers.Trainer.LimitClass | trainer/trainer.py:122-129 | one request to the training dataset, `limit_class_and_sort` when herding and `limit_class` otherwise; afterwards n is in `older_classes`, which only grows and stays duplicate-free; n is appended only if absent |
| Trainers.Distiller.LimitClass | trainer/trainer.py:315-322 | the distiller's copy behaves the same way |
| Budget.TruncDiv | trainer/trainer.py:143 | `int(a / b)` for a positive divisor: the quotient truncated toward zero, bounded by `q*b <= a < (q+1)*b` for a non-negative `a` |
| Budget.ShareShrinks | trainer/trainer.py:143 | for a non-negative budget, more classes never get a larger per-class share; this matters because `left_over` is never cleared |
| Trainers.Trainer.SetupTraining | trainer/trainer.py:131-143 | one limit request per `left_over` id, in order, all with `k = int(memory_budget / len(left_over))` and herding unless `no_herding`; `older_classes` becomes `RememberAll` of its old value and `left_over`; `left_over` and `all_classes` are unchanged; an empty `left_over` sends nothing |
| Trainers.Distiller.SetupTraining | trainer/trainer.py:324-336 | the distiller's copy behaves the same way |
| Budget.LimitCallsAt | trainer/trainer.py:142-143 | the i-th request is for the i-th `left_over` id with the shared k, and it is `limit_class_and_sort` exactly when herding is on |
| Budget.SetupCallsShareBudget | trainer/trainer.py:142-143 | with a non-negative budget, every class gets the same share k, the shares never exceed the budget, and less than one more share is left unused |
| Budget.SetupCallsExample | trainer/trainer.py:142-143 | a budget of 100 over `left_over = [3, 7]` requests 50 exemplars for each class, with or without herding |
| Budget.RememberAllGrows | trainer/trainer.py:128-129 | `older_classes` only grows: its old contents stay a prefix |
| Budget.RememberAllMembers | trainer/trainer.py:128-129 | afterwards an id is in `older_classes` exactly when it was there before or was limited |
| Budget.RememberAllDistinct | trainer/trainer.py:128-129 | a duplicate-free `older_classes` stays duplicate-free |
| Budget.RememberAllKnown | trainer/trainer.py:128-129 | limiting only ids that are already recorded leaves `older_classes` unchanged |
| Budget.RememberAllIdempotent | trainer/trainer.py:128-129 | repeating the same round of limits leaves `older_classes` as the first round left it |
| Schedule.PyIndex | trainer/trainer.py:311 | Python list indexing: a read succeeds exactly for `-len <= t < len`, and a successful read always returns an id of the list |
| Schedule.PyIndexNegative | trainer/trainer.py:311 | a negative index in `[-len, 0)` reads the same id as the index `t + len` |
| Trainers.Distiller.IncrementClasses | trainer/trainer.py:309-312 | for t = g0 .. g1-1 in ascending order, `add_class(all_classes[t])` on the given iterator's dataset, stopping at the first index Python rejects (`ok` false); `all_classes` is not modified |
| Schedule.LookupRangeStopsAtFailure | trainer/trainer.py:310-311 | after a failed index, no later index is read |
| Schedule.LookupRangeInBounds | trainer/trainer.py:310-311 | within bounds the ids read are exactly the slice `all_classes[g0:g1]`, and every read succeeds |
| Schedule.LookupRangeSucceeds | trainer/trainer.py:310-311 | a non-empty range succeeds exactly when `-len <= g0` and `g1 <= len` |
| Batch.OldClassWeights | trainer/trainer.py:171-173 | the accumulated `weight_vector` is 1 at each sample labelled in `[0, 50)` and 0 elsewhere |
| Batch.Nonzero | trainer/trainer.py:175-176 | `nonzero(mask)` lists exactly the positions where the mask holds, in ascending order |
| Batch.NonzeroMembers | trainer/trainer.py:175-176 | a position is listed by `nonzero(mask)` exactly when it is in range and the mask holds there |
| Batch.NonzeroComplementSizes | trainer/trainer.py:175-176 | two complementary masks select every position exactly once between them |
| Batch.PartitionBatch | trainer/trainer.py:171-176 | index i is old exactly when `target[i]` is in `[0, 50)` and new otherwise; both index lists are ascending; together they cover the batch once |
| Batch.OneHotRowAt | trainer/trainer.py:192-198 | a `y_onehot` row has `classes` columns, with 1 at the label's column and 0 elsewhere |
| Batch.OneHotRowSingleOne | trainer/trainer.py:192-198 | a row holds exactly one 1 when the label is a valid column, and none otherwise |
| Batch.NewClassOneHot | trainer/trainer.py:182-198 | the one-hot targets are built exactly when every new-class label is below the class count; no new-class label is a base class; row r has a single 1, at the r-th new-class label |
| Basics.DistinctIffSingleCopies | trainer/trainer.py:32-38 | a list has no duplicates exactly when no id occurs twice in its multiset, which links the shuffle's permutation to the no-duplicates invariant |
| Basics.DistinctAppend | trainer/trainer.py:128-129 | appending an absent id keeps a list duplicate-free |
| Basics.DistinctMoveLast | trainer/trainer.py:99-104 | moving the last id of `all_classes` onto the end of `left_over` keeps the pair duplicate-free |
| Scenarios.TwoStepsExhaustTenClasses | trainer/trainer.py:96-104 | for any seeded shuffle of ten classes with step size 5, two reveals succeed and leave the release order empty, and a third reveal fails on its first `pop()` |
| Scenarios.PopKeepsClasses | trainer/trainer.py:98-104 | popping c ids from `all_classes` and appending them to `left_over` neither loses nor duplicates a class: the two lists together keep the same multiset of ids |
| Scenarios.RevealAndSetup | trainer/trainer.py:96-143 | one reveal followed by a budget setup loses and duplicates no class, and leaves every `left_over` class in `older_classes` |
| Scenarios.FiveCyclesRecordEveryClass | trainer/trainer.py:24-143 | five cycles of reveal and setup with step size 2 over ten classes empty the release order and record all ten classes in `older_classes` |

## Left out

- Threshold vectors (`threshold`, `threshold2`): their accumulation, decay and clamping are floating-point diagnostics. `setup_training`'s reset of them is not modelled.
- The learning-rate schedule (`update_lr`) and `setup_training`'s reset of the optimizer's learning rate: float arithmetic on optimizer state.
- Model forward passes, KL-divergence losses, `backward`, gradient scaling and `optimizer.step`: tensor numerics and foreign PyTorch calls. This includes the choice of which losses a step computes.
- The `distill` step of the distiller and its other tensor code: numerics, as above.
- `update_frozen_model`: a deep copy of a torch module and a model factory that is not shown.
- `AutoEncoderTrainer`: stubs and a neural-network module definition.
- CUDA placement, `progressbar` and `print` logging: input/output with no effect on the modelled state.
- Herding itself, meaning which exemplars `limit_class` and `limit_class_and_sort` keep: it happens in the dataset collaborator, which is not part of this model. The collaborator is seen only through the requests it receives. The frozen-model argument of `limit_class_and_sort` is not recorded.
- Schedule.Shuffle: `random.shuffle` is modelled as Python's Fisher-Yates loop with the random draws given as a parameter (`draws[i]` in `[0, i]`). The Mersenne Twister generator behind `random.seed` is not modelled, so the exact order for a given seed is not captured; the contract states only that the result is a permutation.
- Budget.TruncDiv: `int(memory_budget / len(left_over))` goes through a floating-point quotient. The model uses exact integer truncation, which can differ only for budgets too large for a double to hold exactly.
- Trainers.Trainer.constructor: `ideal_iterator` defaults to `None`, in which case `increment_classes` raises on its first `add_class`. The model always takes an ideal dataset. It also requires the three datasets to be distinct objects; iterators that share one dataset, whose requests would then interleave in one log, are not modelled.
- Trainers.Distiller.constructor: the distiller's test and ideal iterators are not modelled, because none of the modelled distiller operations use them. `Distiller.increment_classes` takes its iterator as a parameter.
- Batch.PartitionBatch: the model assumes the torch version of the `Variable` API that this file is written against. In that version `squeeze` keeps a one-element index tensor one-dimensional, so the index lists behave as plain lists. Labels are taken to be integers.
- Batch.NewClassOneHot: with a later torch, `squeeze` turns a single new-class index into a zero-dimensional tensor. In a batch with exactly one new-class sample, `target2` (line 182) is then zero-dimensional and `len(target2)` at line 192 raises a TypeError. The model does not capture that failure and builds the one row.
- Batch.NewClassOneHot: a label outside `[0, classes)` makes `scatter_` raise. The model reports this as `None` rather than modelling the exception.
