# Forced-alignment search of the Neural Transducer

This project is a Dafny model of the block-wise forced-alignment search in
`neural-transducer/neural_transducer.py`, an implementation of the Neural
Transducer of Jaitly et al. (2015). The model proves properties of that search.

The input is split into B blocks. Over them, the search decides how many of the
T target symbols the transducer emits in each block, at most W per block. The
answer is a list of B markers: marker k is the number of targets emitted up to
the end of block k. A training step then inserts the end-of-block symbol `<e>`
into the targets after each marker. It also derives each block's output length
from the markers.

Modules, one per part of the search:

- `Markers` (`markers.dfy`): marker lists.
  - `Staircase(m, W)`: starting from 0, every marker is 0 .. W above the one before it.
  - `Reachable`: after every marker, the remaining blocks can still reach T.
  - `Capacity(n, W)`: the most targets n blocks can emit, n * W written as repeated addition (`CapacityIsProduct` proves it equals the product).
  - Helper lemmas.
- `Alignments` (`alignment.dfy`): the `Alignment` record as a class.
  - Fields: position `(x, block)`, score `logProb`, the markers `locations`, and the transducer state.
  - A fresh-object constructor, a deep-copy constructor, the summing loop `SumProbabilities`, and `Insert`.
  - The value-level `Inserted` that `Insert` is proved against.
- `Pruning` (`pruning.dfy`): dominance pruning on values.
  - A candidate is dropped iff another candidate at the same position has a strictly larger score.
- `Expander` (`expander.dfy`): one round, `run_new_block`.
  - The index range of every parent, the per-index copy, the transducer run and the insertion.
  - The in-place pruning loop.
  - Each method is proved against ghost functions on values (`Expand`, `ExpandAll`, `BlockEnc`, `BlockStep`).
- `Driver` (`driver.dfy`): `get_alignment`.
  - The checks, in the code's order, then one round per block, then the uniqueness check.
  - `Rounds` runs a round function over the blocks; `RoundsPreserve` carries any property that each round keeps through all of them.
  - `GetAlignment` is proved equal to `AlignmentSpec`. The lemmas about `AlignmentSpec` give the shape of every outcome.
- `Training` (`training.dfy`): the marker-insertion and length loops of `apply_training_step`.
  - Insertion follows Python's `list.insert`, including its index clamping.
  - `ApplyTrainingStep` composes the alignment, the insertion and the lengths.

How the outside world is represented:

- **Transducer (`run_transducer`).** It is a function parameter `oracle(block, encoderState, transducerState, width)`. It returns `width` rows of per-symbol scores plus the new transducer and encoder states. `ValidConfig` states the shape the code relies on: `width` rows of `vocab` scores each, and targets in `0 .. vocab - 1`.
- **Scores.** They are integers standing for log-probabilities. The search only adds them and compares them strictly.
- **Encoder and transducer states.** They are opaque type parameters.
- **Encoder state handed to the next block.** As in the code, it is the one returned by the last transducer run of the round. Before its loops the code sets this state to the incoming one as a fallback, so a round that makes no run hands on the incoming state; the model does the same (`BlockEnc`).
- **End-of-block symbol.** The code derives `<e>` from its vocabulary size as `vocab_size - 2`. The model derives it the same way from the configuration's vocabulary size (`Training.EndSymbol`).

Behaviour of the code worth noting:

- The code places one marker per block, B in all; the last one equals T (`AlignmentSpecOk`).
- When several candidates at one position tie for the best score, all of them survive (`PruneMembers`, `PruneTiesOnly`).
- The comment in the alignment test calls -4.96 the expected score after the second insertion. That is only the second increment. The code's `+=` keeps a running total, so the value after the second insertion is the sum of both increments (`InsertScenario`).
- Under the driver's checks, no round can end empty. The code's final assertion can fail only through exact score ties at position (T, B) (`AlignmentSpecAmbiguous`).

## Model

| member | source | states |
|---|---|---|
| Alignments.InitialValue | neural-transducer/neural_transducer.py:29-33 | a fresh alignment is at position (0, 1), with score 0, no markers and the zero transducer state |
| Alignments.Alignment.constructor | neural-transducer/neural_transducer.py:29-33 | a new object has the value of a fresh alignment |
| Alignments.Alignment.Copy | neural-transducer/neural_transducer.py:339 | the deep copy has the same value as the parent |
| Alignments.Alignment.SumProbabilities | neural-transducer/neural_transducer.py:35-43 | the loop returns the sum, over the block's `width` steps, of step i's score for target `x - width + i` |
| Alignments.StepScoresSplit | neural-transducer/neural_transducer.py:35-43 | scoring w1 + w2 steps equals scoring the first w1, plus scoring the remaining w2 against the rows and targets that follow |
| Alignments.Alignment.Insert | neural-transducer/neural_transducer.py:45-61 | the new state is the old one with the marker `index` appended, position (index, block), the block's step scores added to the score, and the new transducer state; nothing else changes |
| Alignments.InsertScenario | neural-transducer/neural_transducer.py:466-474 | the alignment test in integer scores: the first insertion scores ln 0.7 + ln 0.1; the second adds its own increment to that total; the markers are [2, 5] |
| Markers.StaircaseSorted | neural-transducer/neural_transducer.py:328-336 | a marker list whose every step is 0 .. W is non-decreasing and non-negative |
| Markers.StaircaseSnoc | neural-transducer/neural_transducer.py:336-350 | appending a marker 0 .. W beyond the last keeps the staircase, and the new marker becomes the end |
| Markers.CapacityIsProduct | neural-transducer/neural_transducer.py:328-331 | `Capacity(n, W)`, the most targets n blocks of at most W outputs can emit, is n * W for every integer n |
| Markers.ReachableSnoc | neural-transducer/neural_transducer.py:328-331 | appending a marker at least T - (B - 1 - k) * W keeps every marker able to reach T in the remaining blocks |
| Expander.MinIndex | neural-transducer/neural_transducer.py:328-331 | the code's lower bound equals max(x, T - (B - b) * W), with the product written as `Capacity(B - b, W)` |
| Expander.MaxIndex | neural-transducer/neural_transducer.py:332-333 | the code's upper bound equals min(x + W, T) |
| Expander.CandidateBounds | neural-transducer/neural_transducer.py:328-336 | every index in the range means a width 0 .. W, stays within the targets, and leaves the rest reachable in the remaining blocks |
| Expander.RangeNonEmpty | neural-transducer/neural_transducer.py:328-336 | the range is non-empty exactly when T - (B - b + 1) * W <= x <= T |
| Expander.ChildrenRange | neural-transducer/neural_transducer.py:336-350 | the children of one parent over indices lo .. hi - 1: one per index, hi - lo of them (none when hi <= lo) |
| Expander.ChildrenRangeCons | neural-transducer/neural_transducer.py:336-350 | the range starting at lo is the child at lo followed by the range starting at lo + 1 |
| Expander.ChildrenOntoRange | neural-transducer/neural_transducer.py:336-350 | appending the children one index at a time, as the inner loop does, gives the list followed by the whole range |
| Expander.ChildrenRangeAt | neural-transducer/neural_transducer.py:336-350 | the k-th child is the parent extended to index lo + k in block b, scored from the parent's transducer state |
| Expander.ExpandAllMembers | neural-transducer/neural_transducer.py:322-350 | a value is a candidate of the round iff it belongs to the expansion of one of the parents |
| Expander.ExpandChildren | neural-transducer/neural_transducer.py:326-350 | one parent's expansion holds its child at every index of its range, and every member is such a child |
| Expander.ExpandAllHasEveryChild | neural-transducer/neural_transducer.py:322-350 | every child of every parent, at every index of that parent's range, is a candidate |
| Expander.ExpandAllOnlyChildren | neural-transducer/neural_transducer.py:322-350 | every candidate is the child of some parent at an index of that parent's range |
| Expander.ExpandAllSnoc | neural-transducer/neural_transducer.py:322-350 | a round's candidates are those of the earlier parents, then the next parent's, in index order; the encoder state passes through the parents the same way |
| Expander.NewCandidate | neural-transducer/neural_transducer.py:339-349 | a fresh copy of the parent, inserted at `index` with the transducer output for width index - x, together with the encoder state that run returned |
| Expander.ExpandParent | neural-transducer/neural_transducer.py:326-350 | the parent's turn appends its whole expansion, in index order; the encoder state handed on comes from the run at the top of the range, or is the incoming one when the range is empty |
| Expander.ExpandRange | neural-transducer/neural_transducer.py:336-350 | the index loop over lo .. hi - 1 appends the child at every index, in order, and ends holding the encoder state of the run at hi - 1, or the incoming state when the range is empty |
| Expander.IsDominated | neural-transducer/neural_transducer.py:354-355 | the scan is true iff some candidate in the current list has the same position and a strictly larger score |
| Expander.PruneOverlapping | neural-transducer/neural_transducer.py:353-357 | the reversed removal loop leaves exactly the value-level pruning of the candidates |
| Expander.RunNewBlock | neural-transducer/neural_transducer.py:278-359 | one round returns the pruning of all parents' expansions and the last run's encoder state; the parents are left unchanged |
| Pruning.PruneMembers | neural-transducer/neural_transducer.py:353-357 | a candidate survives iff no candidate at its position has a strictly larger score |
| Pruning.PruneSubsequence | neural-transducer/neural_transducer.py:353-357 | the survivors are an order-preserving subsequence of the candidates |
| Pruning.GroupMaximum | neural-transducer/neural_transducer.py:353-357 | every position group has a member with the group's largest score, and it is not dominated |
| Pruning.PruneKeepsGroupMaximum | neural-transducer/neural_transducer.py:353-357 | every position with a candidate keeps a survivor scoring at least as much as any candidate there |
| Pruning.PruneTiesOnly | neural-transducer/neural_transducer.py:355-357 | survivors at the same position have equal scores, so tied maxima all survive |
| Pruning.PruneNonEmpty | neural-transducer/neural_transducer.py:353-357 | pruning never empties a non-empty list |
| Pruning.KeepFromMembers | neural-transducer/neural_transducer.py:353-357 | the filter keeps exactly the elements that nothing in the whole list dominates |
| Pruning.DominatedPartlyPruned | neural-transducer/neural_transducer.py:353-357 | being dominated within the partly pruned list is the same as being dominated within the original list |
| Pruning.PruneLoopStep | neural-transducer/neural_transducer.py:353-357 | one step of the reversed loop: the scan of the current list decides dominance, and removing the element when it is dominated extends the pruned suffix by one |
| Driver.ChildFeasible | neural-transducer/neural_transducer.py:328-349 | a child of a feasible parent, at an index in its range, is feasible after block b: b markers, a staircase, reachable, position within T - (B - b) * W .. T, and block b |
| Driver.ExpandAllFeasible | neural-transducer/neural_transducer.py:322-350 | expanding a non-empty feasible set of parents gives a non-empty set of candidates, all feasible one block later |
| Driver.BlockStepFeasible | neural-transducer/neural_transducer.py:322-357 | a round on a non-empty feasible set of parents leaves a non-empty feasible set of survivors |
| Driver.RoundsPreserve | neural-transducer/neural_transducer.py:374-381 | a property that every remaining round carries from its parents to its survivors holds after the last block |
| Driver.RoundsLast | neural-transducer/neural_transducer.py:374-381 | after at least one block, the alignments are the survivors of the last round |
| Driver.RoundsFeasible | neural-transducer/neural_transducer.py:374-381 | feasibility and non-emptiness hold through every remaining block |
| Driver.SurvivorsShape | neural-transducer/neural_transducer.py:362-384 | when the checks pass, some alignment survives; after the last block every survivor is at (T, B) and all have the same score |
| Driver.AlignmentSpecErrors | neural-transducer/neural_transducer.py:362-372 | block size 0, an input that is not a block multiple, and W * B < T each give their error exactly when they occur, in the code's order |
| Driver.AlignmentSpecOk | neural-transducer/neural_transducer.py:374-386 | a returned marker list has B entries; it is a staircase of steps 0 .. W, non-decreasing, ends at T, leaves the rest reachable after every marker, and stays within 0 .. T |
| Driver.AlignmentSpecAmbiguous | neural-transducer/neural_transducer.py:384 | the final assertion fails only when there are at least two survivors, all at (T, B), all with the same score |
| Driver.GetAlignment | neural-transducer/neural_transducer.py:362-386 | the driver over alignment objects returns exactly the outcome of `AlignmentSpec` |
| Training.InsertPoint | neural-transducer/neural_transducer.py:409 | Python's `list.insert` index: an in-range index is used as is, a negative one counts from the end, and the result is clamped to 0 .. n |
| Training.ListInsert | neural-transducer/neural_transducer.py:409 | an insertion makes the list one longer |
| Training.ListInsertAt | neural-transducer/neural_transducer.py:409 | elements before the insertion point stay, the value sits at the point, and later elements move up by one |
| Training.ListInsertRemove | neural-transducer/neural_transducer.py:409 | removing the inserted element gives the original list back |
| Training.MarkerSlotsDisjoint | neural-transducer/neural_transducer.py:407-410 | for sorted markers in 0 .. T, no marker slot a[k] + k is the slot of any target |
| Training.CountMonotone | neural-transducer/neural_transducer.py:407-410 | a later target has at least as many markers before it |
| Training.TargetSlotsIncreasing | neural-transducer/neural_transducer.py:407-410 | the targets keep their order after the insertions |
| Training.InsertMarkerStep | neural-transducer/neural_transducer.py:408-410 | one insertion at a[i] + offset places marker i at a[i] + i and keeps the earlier markers and every target in their slots |
| Training.EndSymbol | neural-transducer/neural_transducer.py:13-21 | `<e>` is `vocab - 2`, an index of the vocabulary whenever it has at least two symbols |
| Training.InsertMarkers | neural-transducer/neural_transducer.py:407-410 | the result is n longer; for sorted markers in 0 .. T, the end-of-block symbol is at a[k] + k and target j is at j plus the number of markers at most j |
| Training.SlotsComplete | neural-transducer/neural_transducer.py:407-410 | once all n markers are inserted, the slots of the loop are those of the targets with every marker inserted |
| Training.LengthsPrefixSum | neural-transducer/neural_transducer.py:413-416 | the lengths of the first k blocks add up to marker k - 1 plus k |
| Training.BlockLengths | neural-transducer/neural_transducer.py:413-416 | one length per marker, each the step from the previous marker (0 before the first) plus one; the lengths add up to the last marker plus n |
| Training.ApplyTrainingStep | neural-transducer/neural_transducer.py:402-416 | fails exactly when the alignment fails, with the same error; otherwise B lengths, each 1 .. W + 1, adding up to the expanded length T + B; block k's outputs end exactly at marker k's `<e>` |

## Left out

- The TensorFlow graph, and the `session.run` calls of the transducer and of the training step. They are framework execution. The transducer is the `oracle` parameter, and the loss computation is not modelled.
- `softmax` and `np.log`. These are floating-point numerics. Scores are integers, and the scenario uses log-probabilities in thousandths of a nat.
- The input-dimension and batch-size assertions. These are tensor-shape checks.
- The shape of the input. Only its length, `inputLength`, is modelled.
- Block sizes and maximum widths are `nat`. A negative value, which the code does not reject, cannot be expressed.
- The beam-search inference. It is a stub in the code.
- The print statements of the training step. They only write output.
- `test_new_block`. It calls `run_new_block`, which is nested inside `get_alignment`, from outside it, and passes a `block_inputs` keyword the function does not take, so it cannot run as written.
- The end-to-end test `test_get_alignment`. It needs a live session.
- The other scripts of the repository: the attention seq2seq models and the checkpoint tests.
- The numpy zero arrays for the initial states become the parameters `zeroEnc` and `zeroTrans`.
- Training.InsertMarkers: the targets list is mutated in place in the code; the model returns the expanded list instead.
- Training.InsertMarkers: no lemma proves that marker slots and target slots together cover every position of the result. They are proved disjoint and each family is ordered, but the covering (a counting argument) is not stated.
- Training.BlockLengths: the code also prepends 0 to the caller's alignment list in place; the model reads a padded copy.
- Driver.GetAlignment: the Python `AssertionError` and `ZeroDivisionError` exits become `Err` values of a result type.
- Driver.AlignmentSpecOk: proves the shape of the returned markers but not that their path has the best score over all paths. The code's pruning compares paths that carry different transducer states, so it does not promise that either.
- Expander.RunNewBlock: Python removes elements inside the inner scan with an `a in list` guard. The model scans the whole current list and then removes by index. The result is the same, and the order in which the scan visits elements after a removal is not modelled.
