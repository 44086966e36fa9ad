# sent2vec training core, modelled in Dafny

sent2vec trains sentence embeddings with a negative-sampling objective. This
project models the parts of its training core that do not involve floating
point:

- the window table (`src/windowtable.h`): how a sentence is cut into
  fixed-width word windows, how a window is turned into a key of vocabulary
  indices joined by `-`, how window occurrences are counted over the corpus,
  how the sampling table is filled, and how negative samples are drawn through
  the `rands` cursor chain;
- the control logic of the threaded trainer (`src/pthread_sent2vec.cpp`):
  what the producer puts on the work queue, how a trainer dispatches on the
  items it removes, the per-epoch cost bookkeeping of `Sent2Vec::run`, and the
  `isConverge` gate.

Modules, in dependency order:

| file | module | what it holds |
|---|---|---|
| `wrappers.dfy` | `Wrappers` | the `Option` type shared by the other modules |
| `string_order.dfy` | `StringOrder` | the lexicographic order of `std::string`, which orders the count map |
| `window_keys.dfy` | `WindowKeys` | decimal rendering of an index, `join` with `-`, and the decoder that inverts it |
| `seqs.dfy` | `Seqs` | one sequence lemma shared by the proofs |
| `windows.dfy` | `Windows` | `genWindowsFromSentence`, `genWindowKey`, `windows2WordIndexPair` |
| `win_count.dfy` | `WinCount` | `initWinCountDicFromFile`, with the map as a key-ordered list of entries |
| `sampling_table.dfy` | `SamplingTable` | the fill loop of `genTable`, as a function and as a loop |
| `sampler.dfy` | `Sampler` | `WindowTable::init` and `getSamples` as pure transitions of the table's state |
| `pipeline.dfy` | `Pipeline` | `Producer::run` and `Trainer::run` over the queue contents |
| `epoch.dfy` | `Epoch` | `Sent2Vec::run` and `Sent2Vec::isConverge` |

Modelling choices:

- The collaborators from headers that are not part of this model (`trim` and
  `split` from `utils.h`, `Vocab::index` from `vocab.h`) are function-valued
  fields of an `Env` value. Both key builders are modelled as `Encode` of the
  index list: `genWindowKey` joins a `vector<IndexType>` and
  `windows2WordIndexPair` joins the decimal strings. That the two `join`
  overloads render the same string is an assumption about `utils.h`, not a
  proved fact.
- The corpus file is an `Option<seq<string>>` of lines, with `None` when it
  cannot be opened.
- The `std::map` of counts is a list of `(key, count)` entries in strictly
  increasing key order. That list is also `winCountVec`, which the source
  copies from the map in iteration order.
- The sampling weights `pow(count / Z, POWER)` are an abstract function
  `weight(count, allCounts)`, and the fill loop runs on exact reals. The table
  invariants are proved for any weights.
- The `rands` table is a parameter holding the values `rand()` returned; `Init`
  reduces them modulo `init`'s own table-size argument as `init` does.
- A window table is an immutable value, and each draw returns the next value.
- A trainer does not compute embeddings. It records the sentences it indexed,
  the window keys it used as positive and as negative contexts, and one
  abstract cost per processed sentence. Trainers receive the sampler through
  `Config.sample`. Their contract `SamplerSpec` is met by the window table's
  own `getSamples` (`Pipeline.SamplerOfMeetsSpec`).
- The threads and the blocking queue are replaced by the queue's contents.
  The trainers of an epoch run one after another, each until it stops. The
  queue is first-in first-out and the producer only appends. So the items each
  trainer removes are those of an interleaving in which that trainer removes
  them. `Pipeline.Interleave` models an arbitrary schedule for the sentinel
  count.
- `genWindowsFromSentence` keeps its loop bound `i < n - size`. A sentence of
  `n >= size` words gives `n - size` windows: the last contiguous slice is
  dropped, and a sentence of exactly `size` words gives none
  (`Windows.GenWindowsDropsLastSlice`).

Behaviours of the code that the model keeps, with their consequences:

- The producer queues every trimmed line, empty lines included; a trainer
  skips an empty line because it has no window.
- `isConverge` compares the signed difference `Js[last] - Js[last-1]` with the
  threshold, so any fall in cost opens the gate, however large
  (`Epoch.IsConvergeAcceptsLargeFall`).
- The work queue is a global that `run` never empties, so the epochs
  alternate: every second epoch starts with `nThreads` stop marks left at the
  head of the queue and trains nothing, and the epoch after it trains on the
  corpus again. The queue gains one whole producer output every two epochs
  (see Findings).
- A corpus line that trims to the stop mark `~!@#$%` stops a trainer in the
  middle of the corpus. The whole-corpus results below assume no line does.
- `init`'s parameter `TABLE_SIZE` shadows the constant member the constructor
  sets: the random indices are reduced modulo `init`'s argument, while the
  table is sized by the constructor's value. The cursor chain stays inside
  the table only because both are `1e7` by default (`Sampler.Init`,
  `Sampler.InitPastTable`).
- The cost `Jn` of a sentence is computed from the embeddings, which every
  earlier training step has updated. The model makes the cost an abstract
  function of the learner state after the sentence's windows, which records
  those steps, so the same corpus may give different costs in different epochs.

## Model

| member | source | states |
|---|---|---|
| StringOrder.LexTransitive | src/windowtable.h:80 | the order on map keys is transitive |
| StringOrder.LexTotal | src/windowtable.h:80 | any two distinct keys are ordered one way or the other, so the map has one iteration order |
| WindowKeys.ParseDecimalInverse | src/windowtable.h:63-66 | reading back the decimal rendering of an index gives the index |
| WindowKeys.SplitJoin | src/windowtable.h:68 | splitting a `-`-join of parts without `-` at `-` gives back the parts |
| WindowKeys.DecodeEncode | src/windowtable.h:42-51 | a window key decodes to exactly the index sequence it was built from |
| WindowKeys.EncodeInjective | src/windowtable.h:42-51 | two index sequences with the same key are equal |
| Windows.GenWindows | src/windowtable.h:18-37 | no windows when there are fewer words than the width or the width is negative; otherwise exactly `n - size` windows, each `size` words wide |
| Windows.SlicesShape | src/windowtable.h:30-35 | the reference slicing has `n - size + 1` slices, and slice `i` is `words[i .. i + size]` |
| Windows.GenWindowsDropsLastSlice | src/windowtable.h:30-35 | the windows are the contiguous slices in order, except the last one |
| Windows.WindowKeyNamesIndices | src/windowtable.h:42-51 | a window's key decodes to its words' indices |
| Windows.WindowsToKeys | src/windowtable.h:53-72 | one key per window, in window order, equal to that window's `genWindowKey` |
| Windows.WindowsToKeysDecode | src/windowtable.h:53-72 | every key of the list decodes to the indices of its window |
| Windows.SameKeyIffSameIndices | src/windowtable.h:42-51 | two windows share a key if and only if their index sequences are equal |
| Windows.LineKeys | src/windowtable.h:120-122 | a line yields one key per window of the trimmed line |
| WinCount.Bump | src/windowtable.h:125-137 | counting one key keeps the map ordered with positive counts, and its key set gains exactly that key |
| WinCount.BumpLookup | src/windowtable.h:125-137 | counting key `k` raises `k`'s count by one (a new key starts at 1) and leaves every other count alone |
| WinCount.BumpTotal | src/windowtable.h:125-137 | counting one key raises the sum of the counts by one |
| WinCount.TallyCounts | src/windowtable.h:123-138 | each key's count is its number of occurrences among the keys counted |
| WinCount.TallyKeys | src/windowtable.h:123-138 | the map's keys are exactly the keys counted |
| WinCount.TallyTotal | src/windowtable.h:123-138 | the counts sum to the number of keys counted |
| WinCount.CountLinesIsTally | src/windowtable.h:117-139 | the line loop counts the window keys of all lines in file order |
| WinCount.CorpusKeysLength | src/windowtable.h:117-122 | the corpus has as many window keys as windows |
| WinCount.InitWinCountDic | src/windowtable.h:108-141 | an unreadable file gives an empty map; otherwise the map holds exactly the corpus's window keys, in key order, each with its number of occurrences, summing to the number of windows |
| SamplingTable.CumulativeMonotone | src/windowtable.h:169-179 | the running mass never decreases along the keys for non-negative weights |
| SamplingTable.FillTable | src/windowtable.h:167-182 | the table has `TABLE_SIZE` entries, the first is 0, and every entry is below the number of keys (the clamp) |
| SamplingTable.FillTableContiguous | src/windowtable.h:172-182 | each entry equals the previous one or the previous one plus one, for any weights |
| SamplingTable.FillFromBelowThreshold | src/windowtable.h:172-182 | an entry names key `i > 0` only if the mass of keys before `i` is below that entry's fraction of the table |
| SamplingTable.FillTableNeverOvershoots | src/windowtable.h:175-177 | entry `a` never names a key after the first key whose cumulative mass reaches `a / TABLE_SIZE` |
| SamplingTable.ReadsPastEndExample | src/windowtable.h:177-180 | with weights that sum below 1, the loop reads `winCountVec[V]` before clamping the cursor |
| SamplingTable.NoReadPastEndWhenMassReachesOne | src/windowtable.h:177-180 | when the weights sum to at least 1, the out-of-range read never happens |
| SamplingTable.GenTableFill | src/windowtable.h:167-182 | the imperative fill loop computes exactly the table `FillTable` describes |
| SamplingTable.BuildTable | src/windowtable.h:143-184 | the build aborts if and only if the corpus is unreadable or has no window; otherwise the key list is non-empty, in key order, holds exactly the corpus's window keys, each with its number of occurrences; the table has `TABLE_SIZE` entries below the number of keys, starts at the first key, and moves from one entry to the next by 0 or 1 key |
| Sampler.Init | src/windowtable.h:93-105 | the cursor starts at 27, no table exists, every `rands` entry is the random value reduced modulo `init`'s own `TABLE_SIZE` argument, and the object is valid (every random index inside the constructor's table size) when that argument is at most the constructor's |
| Sampler.InitPastTable | src/windowtable.h:91-102 | when `init`'s argument exceeds the constructor's table size, some random values give an index past the end of the table |
| Sampler.NextCursor | src/windowtable.h:200-201 | after each step the cursor is a valid index into the table |
| Sampler.Draw | src/windowtable.h:196-205 | `k` steps give `k` samples and leave a cursor that indexes the table |
| Sampler.DrawnAreKeys | src/windowtable.h:200-203 | every sample is a key of `winCountVec` |
| Sampler.DrawDependsOnly | src/windowtable.h:196-205 | two window tables that agree on `rands`, the table and the key list draw the same samples from the same cursor, whatever their stored cursor, `tableSize` or window size |
| Sampler.GetSamplesDependsOnly | src/windowtable.h:186-208 | two window tables with a built table that agree on `rands`, `currentRandom`, the table and the key list return the same samples and end at the same `currentRandom`, whatever the corpus, the weight or the rest of their state |
| Sampler.DrawConcat | src/windowtable.h:196-205 | drawing `k1 + k2` samples is drawing `k1` and then `k2` from where the cursor stopped |
| Sampler.GetSamples | src/windowtable.h:186-208 | aborts if and only if no table exists and none can be built; otherwise exactly `k` samples (none for negative `k`), all keys of the key list, an existing table is never rebuilt, and a freshly built table yields only corpus window keys |
| Sampler.GetSamplesTwice | src/windowtable.h:186-208 | two calls on a built table give the samples and end state of one call for the combined count |
| Pipeline.Produce | src/pthread_sent2vec.cpp:39-58 | the producer ends the process if and only if the corpus cannot be opened |
| Pipeline.ProduceContents | src/pthread_sent2vec.cpp:47-55 | the queue holds every trimmed line in file order, empty ones included, followed by exactly `2 * nThreads` stop marks |
| Pipeline.SplitAtMark | src/pthread_sent2vec.cpp:65-68 | a trainer's share of the queue ends just before the first stop mark, and the mark is consumed but not processed |
| Pipeline.SamplerOfMeetsSpec | src/windowtable.h:186-208 | the window table's `getSamples` meets the contract a trainer relies on |
| Pipeline.TrainWindowEffects | src/pthread_sent2vec.cpp:84-99 | a window aborts exactly when no table exists and none can be built; otherwise it adds its own key as positive context and `k` negative samples |
| Pipeline.TrainWindowsEffects | src/pthread_sent2vec.cpp:82-114 | the window loop can abort only on its first window, keeps a built table, and touches neither the indexed sentences nor the costs |
| Pipeline.TrainWindowsPositives | src/pthread_sent2vec.cpp:82-97 | the positive contexts are the window keys of the sentence, in window order |
| Pipeline.TrainWindowsDraws | src/pthread_sent2vec.cpp:82-110 | every window draws exactly `k` negative samples |
| Pipeline.DrawsForIsProduct | src/pthread_sent2vec.cpp:82-99 | a sentence with `w` windows draws `w * k` samples (none for negative `k`) |
| Pipeline.TrainSentenceEffects | src/pthread_sent2vec.cpp:70-116 | a sentence without windows changes nothing; a processed sentence is indexed once and appends exactly one cost, the cost of that sentence in the state its windows leave; an abort needs a missing table and a corpus without windows |
| Pipeline.TrainSentenceDraws | src/pthread_sent2vec.cpp:70-110 | a processed sentence draws `k` negative samples per window |
| Pipeline.TrainerStopsAtFirstMark | src/pthread_sent2vec.cpp:64-68 | a trainer stops on the first stop mark and leaves everything after it; it waits forever only when the queue holds no mark |
| Pipeline.TrainerFailsOnlyWithoutTable | src/pthread_sent2vec.cpp:64-119 | a trainer aborts only when no table exists, it met a sentence with windows, and the corpus has none |
| Pipeline.TrainerProcessesSentencesBeforeMark | src/pthread_sent2vec.cpp:64-119 | a trainer indexes exactly the sentences with windows before its mark, in queue order, and appends one cost for each to the costs already buffered |
| Pipeline.TrainerDrawsPerWindow | src/pthread_sent2vec.cpp:64-119 | a trainer draws `k` negative samples for every window of the sentences before its mark |
| Pipeline.InterleaveConsumesOneMarkPerTrainer | src/pthread_sent2vec.cpp:65-68 | under any schedule, the stop marks removed are exactly as many as the trainers that stopped |
| Pipeline.SentinelsNeverExhausted | src/pthread_sent2vec.cpp:52-55 | under any schedule of `nThreads` trainers, at least `nThreads` stop marks stay in the queue |
| Epoch.MeanWithinBounds | src/pthread_sent2vec.cpp:180 | the mean cost lies between any bounds of the costs |
| Epoch.RecordCost | src/pthread_sent2vec.cpp:178-184 | the cost history keeps its entries and grows by one, the mean, if and only if the buffer was non-empty |
| Epoch.RecordedCostWithinBounds | src/pthread_sent2vec.cpp:178-184 | the recorded cost lies between any bounds of the buffered costs |
| Epoch.RunEpoch | src/pthread_sent2vec.cpp:151-186 | the producer ends the process if and only if the corpus cannot be opened (a training abort in `genTable` is a separate outcome), and a finished epoch leaves the cost buffer empty |
| Epoch.TrainersOnMarks | src/pthread_sent2vec.cpp:156-168 | trainers facing stop marks each take one and change nothing |
| Epoch.TrainerWindowsAreCountedWindows | src/windowtable.h:117-122 | the trainers see exactly as many windows in the queued lines as the table counted in the file |
| Epoch.FirstTrainerTrainsCorpus | src/pthread_sent2vec.cpp:64-119 | on the trimmed corpus followed by `m >= 1` marks and anything queued behind them, when no trimmed line is the stop mark, one trainer processes every line with windows, in order, appends one cost for each, and stops on the first mark, leaving `m - 1` marks and everything queued behind them |
| Epoch.EpochTrainsWholeCorpus | src/pthread_sent2vec.cpp:151-186 | when no trimmed line is the stop mark, the first epoch trains every sentence with windows, keeps the cost history and adds one entry exactly when some line has windows, that entry being the mean of the first trainer's costs, one per such line; it leaves `nThreads` marks in the queue |
| Epoch.LeftoverMarksStopNextEpoch | src/pthread_sent2vec.cpp:24 | an epoch whose queue starts with `nThreads` leftover marks, whatever is queued after them, trains nothing, records no cost, and leaves what was queued after the marks followed by its whole producer output |
| Epoch.SecondEpochTrainsNothing | src/pthread_sent2vec.cpp:211-213 | when no trimmed line is the stop mark, the second of two epochs in a row ends with the learner and the cost history it started from, so it trains no sentence and records no cost, and it leaves the whole output of its producer queued |
| Epoch.LeftoverCorpusEpochTrains | src/pthread_sent2vec.cpp:151-186 | when no trimmed line is the stop mark, an epoch that finds a whole producer output at the head of the queue, whatever is queued after it, trains every sentence with windows, adds one entry to the cost history exactly when some line has windows, and leaves `nThreads` old marks, then what was queued after that output, then its own producer output |
| Epoch.ThirdEpochTrainsAgain | src/pthread_sent2vec.cpp:211-213 | when no trimmed line is the stop mark, the third of three epochs in a row trains the whole corpus again and leaves `nThreads` marks at the head of the queue, so training alternates between epochs |
| Epoch.RunEpochDrained | src/pthread_sent2vec.cpp:151-186 | the corrected epoch ends like `run` and leaves the work queue empty |
| Epoch.DrainedEpochTrainsWholeCorpus | src/pthread_sent2vec.cpp:151-186 | when no trimmed line is the stop mark, a corrected epoch from an empty queue trains every sentence with windows and adds one entry to the cost history exactly when some line has windows |
| Epoch.DrainedEpochsEachTrainWholeCorpus | src/pthread_sent2vec.cpp:211-213 | when no trimmed line is the stop mark and the queue is drained, the second epoch trains the whole corpus again and, like the first, adds one entry to the cost history exactly when some line has windows |
| Epoch.IsConverge | src/pthread_sent2vec.cpp:191-198 | the gate is closed with 8 or fewer costs, and when it opens the last cost is below the previous one plus the threshold |
| Epoch.IsConvergeRelatesToSmallStep | src/pthread_sent2vec.cpp:191-198 | with more than 8 costs, the gate opens if and only if the last step is smaller than the threshold in absolute value, or is negative and below the threshold |
| Epoch.IsConvergeAcceptsLargeFall | src/pthread_sent2vec.cpp:195 | a fall from 100 to 0 after eight equal costs opens the gate although the step is not small |

## Left out

- File I/O: the corpus is a sequence of lines, or `None` when it cannot be opened. `cout` logging is not modelled.
- `exit(-1)` on a missing corpus and the `assert` in `genTable` end the process. They are result values (`Exited`, `None`, `Aborted`, `ProducerExited`, `EpochAborted`).
- Threads, `wqueue` and pthread start/join: the trainers run in sequence over the queue contents. A trainer blocked on an empty queue is the result `Starved`, and an epoch that would block in `join` is `EpochHangs`.
- The unsynchronised races on `currentRandom` and on the embedding tables: each draw sees the state the previous draw left.
- Gradient arithmetic (`exp`, `log`, `Vec` operations, `updateV /= (1 + k)`, `updateWindow`, `updateVec`): floating point on an external vector type. A trainer's cost `Jn` is an abstract function of the learner state and the sentence, so the model states how many costs are recorded and when the history grows, not the values recorded.
- The float weights `pow(count / Z, POWER)` of `genTable`: they are an abstract weight function, and the fill runs on exact reals.
- The value read from `winCountVec[V]` past the end of the key list (src/windowtable.h:178-179): it only feeds the mass after the cursor has reached the last key. The cursor is clamped there, so the table does not depend on that value. `SamplingTable.ReadsPastEnd` marks when the read happens.
- `rand()` and its seeding: `Init` takes the `RAND_TABLE_SIZE` values as a parameter.
- `Vocab::index`, `trim`, `split` and `join` from `vocab.h` and `utils.h`: these headers are not part of this model. The first three are fields of `Env`, and `join` is modelled as joining decimal renderings with `-`.
- `Results::mean` and `Vec::append` are not part of this model. The mean is the exact arithmetic mean.
- `Sent2Vec::initData`, including its call to the undefined `wordTable_pgenTable`, and the loading of the vocabulary and sentence tables.
- The driver `main` (src/pthread_sent2vec.cpp:207-225) and its limit of 60 epochs: the model relates up to three consecutive epochs, and the two lemmas about leftover queues hold whatever is queued behind the part they consume. The driver in `src01/sent2vec.cpp` is not part of this model.
- A corpus line that trims to the stop mark: it ends a trainer's share early. The whole-corpus lemmas (`Epoch.FirstTrainerTrainsCorpus`, `Epoch.EpochTrainsWholeCorpus`, `Epoch.SecondEpochTrainsNothing`, `Epoch.DrainedEpochTrainsWholeCorpus`, `Epoch.DrainedEpochsEachTrainWholeCorpus`, `Epoch.LeftoverCorpusEpochTrains`, `Epoch.ThirdEpochTrainsAgain`) require that no trimmed line equals it. `Pipeline.TrainerStopsAtFirstMark` covers the general case.
- The out-of-range read `table[currentRandom]` when `init`'s table size exceeds the constructor's: `getSamples` is modelled only on valid objects, and `Sampler.InitPastTable` shows when an object is not valid.
- Epoch.DrainedEpochTrainsWholeCorpus, Epoch.DrainedEpochsEachTrainWholeCorpus, Epoch.LeftoverCorpusEpochTrains, Epoch.ThirdEpochTrainsAgain: state when the cost history grows, not the value added, because each cost is an abstract function of the training state; `Epoch.RecordCost` and `Epoch.RecordedCostWithinBounds` state what the added entry is in terms of the buffered costs.
- Pipeline.TrainWindowEffects: states the number of negative samples drawn, not which keys they are; which keys they are depends on the sampler, whose own contract is `Sampler.GetSamples`.

## Findings

| source | as written | input that shows it | evidently intended | confidence | as-written member | corrected member |
|---|---|---|---|---|---|---|
| src/pthread_sent2vec.cpp:24, 52-55, 151-186 | The work queue is a global that `run` never empties. The producer adds `2 * nThreads` stop marks, but only `nThreads` are consumed, so the next epoch starts with `nThreads` marks at the head of the queue and trains nothing. That epoch leaves the whole producer output queued, the one after trains on it and again leaves `nThreads` marks at the head, so every second epoch trains nothing and only every other call of `run` in the driver's loop can record a cost. The queue gains one whole producer output every two epochs. | Any readable corpus with `nThreads >= 1`, run for three epochs. In the second epoch each trainer removes a leftover mark and stops. That epoch trains nothing, records no cost, and leaves the whole producer output for the third epoch, which trains on it and leaves `nThreads` marks at the head of the queue again. | Every epoch trains on the whole corpus, with an empty queue between epochs: each `run` re-reads the whole file and joins every trainer, so each call is evidently one pass. | medium, not executed | Epoch.SecondEpochTrainsNothing | Epoch.DrainedEpochsEachTrainWholeCorpus |
