/** One epoch of training (`Sent2Vec::run`) and the convergence gate
    (`Sent2Vec::isConverge`). The producer fills the global work queue, the
    trainers drain it, and the mean cost of the sentences processed is appended
    to the cost history `Js`.

    The work queue is a global that outlives an epoch, so an epoch starts from
    whatever the previous one left in it. The trainers are run one after
    another, each until it stops; the queue is first-in first-out and the
    producer only appends, so the items each trainer removes are the same as in
    any interleaving in which the same trainer removes each item. */
module Epoch {
  import opened Wrappers
  import opened WindowKeys
  import opened Windows
  import opened WinCount
  import opened Sampler
  import opened Pipeline
  import opened Seqs

  function Sum(xs: seq<real>): real
  {
    if |xs| == 0 then 0.0 else xs[0] + Sum(xs[1..])
  }

  /** `Results::mean`: the arithmetic mean of the buffered costs. */
  function Mean(xs: seq<real>): real
    requires |xs| > 0
  {
    Sum(xs) / (|xs| as real)
  }

  lemma {:induction false} SumWithinBounds(xs: seq<real>, lo: real, hi: real)
    requires forall i :: 0 <= i < |xs| ==> lo <= xs[i] <= hi
    ensures (|xs| as real) * lo <= Sum(xs) <= (|xs| as real) * hi
  {
    if |xs| > 0 {
      SumWithinBounds(xs[1..], lo, hi);
      var n := (|xs| - 1) as real;
      assert (|xs| as real) * lo == lo + n * lo;
      assert (|xs| as real) * hi == hi + n * hi;
    }
  }

  /** The mean lies between the smallest and the largest cost. */
  lemma MeanWithinBounds(xs: seq<real>, lo: real, hi: real)
    requires |xs| > 0
    requires forall i :: 0 <= i < |xs| ==> lo <= xs[i] <= hi
    ensures lo <= Mean(xs) <= hi
  {
    SumWithinBounds(xs, lo, hi);
    var n := |xs| as real;
    assert Mean(xs) - lo == (Sum(xs) - n * lo) / n;
    assert hi - Mean(xs) == (n * hi - Sum(xs)) / n;
  }

  /** The cost bookkeeping at the end of `run`: when the buffer holds costs their
      mean becomes the next entry of the history; an empty buffer leaves the
      history as it is. (The buffer is then cleared.) */
  function RecordCost(js: seq<real>, results: seq<real>): (r: seq<real>)
    ensures |r| == |js| + (if |results| > 0 then 1 else 0)
    ensures r[..|js|] == js
    ensures |results| > 0 ==> r[|js|] == Mean(results)
  {
    if |results| > 0 then js + [Mean(results)] else js
  }

  /** The entry an epoch adds to the history lies within the range of the costs
      of that epoch's sentences. */
  lemma RecordedCostWithinBounds(js: seq<real>, results: seq<real>, lo: real, hi: real)
    requires |results| > 0
    requires forall i :: 0 <= i < |results| ==> lo <= results[i] <= hi
    ensures lo <= RecordCost(js, results)[|js|] <= hi
  {
    MeanWithinBounds(results, lo, hi);
  }

  /** How the trainers of an epoch end: all stopped, leaving the rest of the
      queue; one of them waiting forever on an empty queue, so `run` never
      returns from `join`; or the process aborted in `genTable`. */
  datatype Joined = AllStopped(rest: seq<string>, learner: Learner) | Waiting | TrainingAborted

  /** `n` trainers over the queue `q`, each running until it stops. */
  function RunTrainers(cfg: Config, q: seq<string>, l: Learner, n: nat): (r: Joined)
    requires Valid(l.sampler) && SamplerSpec(cfg)
    ensures r.AllStopped? ==> Valid(r.learner.sampler) && r.learner.sampler.size == l.sampler.size
    decreases n
  {
    if n == 0 then AllStopped(q, l)
    else
      match TrainerRun(cfg, q, l)
      case Failed => TrainingAborted
      case Starved(_) => Waiting
      case Stopped(rest, l') => RunTrainers(cfg, rest, l', n - 1)
  }

  /** Trainers facing stop marks stop at once, one mark each, and change nothing. */
  lemma {:induction false} TrainersOnMarks(cfg: Config, m: nat, tail: seq<string>, l: Learner, n: nat)
    requires Valid(l.sampler) && SamplerSpec(cfg)
    requires n <= m
    ensures RunTrainers(cfg, Repeat(STOP_MARK, m) + tail, l, n) == AllStopped(Repeat(STOP_MARK, m - n) + tail, l)
    decreases n
  {
    if n > 0 {
      var q := Repeat(STOP_MARK, m) + tail;
      assert q[0] == STOP_MARK;
      assert q[1..] == Repeat(STOP_MARK, m - 1) + tail;
      TrainersOnMarks(cfg, m - 1, tail, l, n - 1);
    }
  }

  /** With `2 * n - 1` marks left, the other `n - 1` trainers each take one and
      `n` remain. */
  lemma {:induction false} OtherTrainersStop(cfg: Config, l: Learner, n: nat)
    requires Valid(l.sampler) && SamplerSpec(cfg)
    requires n >= 1
    ensures RunTrainers(cfg, Repeat(STOP_MARK, 2 * n - 1), l, n - 1) == AllStopped(Repeat(STOP_MARK, n), l)
  {
    var marks := Repeat(STOP_MARK, 2 * n - 1);
    assert marks + [] == marks;
    assert Repeat(STOP_MARK, n) + [] == Repeat(STOP_MARK, n);
    TrainersOnMarks(cfg, 2 * n - 1, [], l, n - 1);
  }

  /** Once the first trainer has stopped with `2 * n - 1` marks left, the other
      `n - 1` trainers each take one and change nothing. */
  lemma {:induction false} TrainersAfterFirstStops(cfg: Config, q: seq<string>, l: Learner, n: nat)
    requires Valid(l.sampler) && SamplerSpec(cfg)
    requires n >= 1 && TrainerRun(cfg, q, l).Stopped?
    requires TrainerRun(cfg, q, l).rest == Repeat(STOP_MARK, 2 * n - 1)
    ensures RunTrainers(cfg, q, l, n) == AllStopped(Repeat(STOP_MARK, n), TrainerRun(cfg, q, l).learner)
  {
    var first := TrainerRun(cfg, q, l);
    assert RunTrainers(cfg, q, l, n) == RunTrainers(cfg, first.rest, first.learner, n - 1);
    OtherTrainersStop(cfg, first.learner, n);
  }

  datatype EpochEnd =
    | ProducerExited
    | EpochAborted
    | EpochHangs
    | Finished(queue: seq<string>, learner: Learner, js: seq<real>)

  /** `Sent2Vec::run`: the producer appends its items to the work queue as it
      stands (`queue`), `nThreads` trainers run and are joined, and the cost
      history `js` records the mean of the buffered costs, which are cleared.
      A missing corpus makes the producer exit the process. */
  function RunEpoch(cfg: Config, queue: seq<string>, l: Learner, js: seq<real>): (r: EpochEnd)
    requires Valid(l.sampler) && SamplerSpec(cfg)
    ensures r.ProducerExited? <==> cfg.corpus.None?
    ensures r.Finished? ==> Valid(r.learner.sampler) && r.learner.sampler.size == l.sampler.size
    ensures r.Finished? ==> r.learner.results == []
  {
    match Produce(cfg.env, cfg.corpus, cfg.nThreads)
    case Exited => ProducerExited
    case Queue(items) =>
      match RunTrainers(cfg, queue + items, l, Iterations(cfg.nThreads))
      case TrainingAborted => EpochAborted
      case Waiting => EpochHangs
      case AllStopped(rest, l') => Finished(rest, l'.(results := []), RecordCost(js, l'.results))
  }

  lemma ProduceOnCorpus(cfg: Config, lines: seq<string>)
    requires cfg.corpus == Some(lines) && cfg.nThreads >= 1
    ensures Produce(cfg.env, cfg.corpus, cfg.nThreads) == Queue(TrimAll(cfg.env, lines) + Repeat(STOP_MARK, 2 * cfg.nThreads))
  {
  }

  lemma EpochOfJoinedTrainers(cfg: Config, queue: seq<string>, l: Learner, js: seq<real>,
                              items: seq<string>, rest: seq<string>, l': Learner)
    requires Valid(l.sampler) && SamplerSpec(cfg)
    requires Produce(cfg.env, cfg.corpus, cfg.nThreads) == Queue(items)
    requires RunTrainers(cfg, queue + items, l, Iterations(cfg.nThreads)) == AllStopped(rest, l')
    ensures RunEpoch(cfg, queue, l, js) == Finished(rest, l'.(results := []), RecordCost(js, l'.results))
  {
  }

  lemma {:induction false} WindowTotalAppend(env: Env, size: int, xs: seq<string>, ys: seq<string>)
    ensures WindowTotal(env, size, xs + ys) == WindowTotal(env, size, xs) + WindowTotal(env, size, ys)
  {
    if |xs| > 0 {
      assert (xs + ys)[1..] == xs[1..] + ys;
      WindowTotalAppend(env, size, xs[1..], ys);
    } else {
      assert xs + ys == ys;
    }
  }

  /** The trainers see as many windows in the trimmed lines as the counting pass
      counts in the corpus: both split the same trimmed lines. */
  lemma {:induction false} TrainerWindowsAreCountedWindows(env: Env, size: int, lines: seq<string>)
    ensures WindowTotal(env, size, TrimAll(env, lines)) == CorpusWindowCount(env, lines, size)
  {
    if |lines| > 0 {
      var init := lines[..|lines| - 1];
      var last := lines[|lines| - 1];
      TrainerWindowsAreCountedWindows(env, size, init);
      var xs := TrimAll(env, init);
      assert TrimAll(env, lines) == xs + [env.trim(last)];
      WindowTotalAppend(env, size, xs, [env.trim(last)]);
      assert WindowTotal(env, size, [env.trim(last)]) == |GenWindowsFromSentence(env, env.trim(last), size)|;
    }
  }

  lemma {:induction false} ProcessedHaveWindows(env: Env, size: int, sentences: seq<string>)
    requires |Processed(env, size, sentences)| > 0
    ensures WindowTotal(env, size, sentences) > 0
  {
    if |GenWindowsFromSentence(env, sentences[0], size)| == 0 {
      ProcessedHaveWindows(env, size, sentences[1..]);
    }
  }

  /** A queue that starts with the producer's output splits at its first stop
      mark into the trimmed lines and what follows the first mark, provided no
      trimmed line is itself a stop mark. */
  lemma {:induction false} ProducedSplitsAtFirstMark(env: Env, lines: seq<string>, m: nat, tail: seq<string>)
    requires m > 0
    requires forall i :: 0 <= i < |lines| ==> env.trim(lines[i]) != STOP_MARK
    ensures var q := TrimAll(env, lines) + Repeat(STOP_MARK, m) + tail;
      BeforeMark(q) == TrimAll(env, lines) && AfterMark(q) == Repeat(STOP_MARK, m - 1) + tail
  {
    var xs := TrimAll(env, lines);
    var marks := Repeat(STOP_MARK, m - 1);
    assert STOP_MARK !in xs;
    assert Repeat(STOP_MARK, m) == [STOP_MARK] + marks;
    assert xs + Repeat(STOP_MARK, m) + tail == xs + [STOP_MARK] + (marks + tail);
    SplitAtMark(xs, marks + tail);
  }

  /** A trainer facing the producer's output, with anything queued behind it,
      trains every trimmed line that has a window, in file order, and stops on
      the first mark; the table can always be built when it is needed. */
  lemma {:induction false} FirstTrainerTrainsCorpus(cfg: Config, lines: seq<string>, l: Learner, m: nat,
                                                    tail: seq<string>)
    requires Valid(l.sampler) && SamplerSpec(cfg)
    requires cfg.corpus == Some(lines) && m > 0
    requires l.sampler.size == cfg.windowSize
    requires forall i :: 0 <= i < |lines| ==> cfg.env.trim(lines[i]) != STOP_MARK
    ensures var done := Processed(cfg.env, cfg.windowSize, TrimAll(cfg.env, lines));
      var r := TrainerRun(cfg, TrimAll(cfg.env, lines) + Repeat(STOP_MARK, m) + tail, l);
      && r.Stopped?
      && r.rest == Repeat(STOP_MARK, m - 1) + tail
      && r.learner.sentences == l.sentences + done
      && |r.learner.results| == |l.results| + |done|
      && r.learner.results[..|l.results|] == l.results
  {
    var xs := TrimAll(cfg.env, lines);
    var q := xs + Repeat(STOP_MARK, m) + tail;
    ProducedSplitsAtFirstMark(cfg.env, lines, m, tail);
    TrainerStopsAtFirstMark(cfg, q, l);
    TrainerProcessesSentencesBeforeMark(cfg, q, l);
    TrainerFailsOnlyWithoutTable(cfg, q, l);
    if TrainerRun(cfg, q, l).Failed? {
      ProcessedHaveWindows(cfg.env, cfg.windowSize, xs);
      TrainerWindowsAreCountedWindows(cfg.env, cfg.windowSize, lines);
      assert false;
    }
    assert STOP_MARK in q by {
      assert q[|xs|] == STOP_MARK;
    }
  }

  /** An epoch started on an empty work queue, with an empty cost buffer and at
      least one trainer, trains on every line of the corpus that has a window,
      provided no trimmed line is itself a stop mark: the first trainer indexes
      those sentences in file order and buffers one cost each, every other
      trainer stops on a mark, the history keeps its entries and grows by one,
      the mean of the first trainer's costs, exactly when some sentence was
      processed, and `nThreads` stop marks stay in the queue. */
  lemma {:induction false} EpochTrainsWholeCorpus(cfg: Config, lines: seq<string>, l: Learner, js: seq<real>)
    requires Valid(l.sampler) && SamplerSpec(cfg)
    requires cfg.corpus == Some(lines) && cfg.nThreads >= 1
    requires l.sampler.size == cfg.windowSize && l.results == []
    requires forall i :: 0 <= i < |lines| ==> cfg.env.trim(lines[i]) != STOP_MARK
    ensures var done := Processed(cfg.env, cfg.windowSize, TrimAll(cfg.env, lines));
      var r := RunEpoch(cfg, [], l, js);
      && r.Finished?
      && r.queue == Repeat(STOP_MARK, cfg.nThreads)
      && r.learner.sentences == l.sentences + done
      && |r.js| == |js| + (if |done| > 0 then 1 else 0)
      && r.js[..|js|] == js
      && var first := TrainerRun(cfg, TrimAll(cfg.env, lines) + Repeat(STOP_MARK, 2 * cfg.nThreads), l);
      && first.Stopped?
      && |first.learner.results| == |done|
      && r.js == RecordCost(js, first.learner.results)
  {
    var n := cfg.nThreads;
    var q := TrimAll(cfg.env, lines) + Repeat(STOP_MARK, 2 * n);
    assert q + [] == q;
    FirstTrainerTrainsCorpus(cfg, lines, l, 2 * n, []);
    EpochAfterFirstTrainer(cfg, lines, l, js);
    assert RunEpoch(cfg, [], l, js).js == RecordCost(js, TrainerRun(cfg, q, l).learner.results);
  }

  /** Once the first trainer of an epoch on an empty queue has stopped on the
      first of the `2 * nThreads` marks, the epoch finishes with what that
      trainer left: the other trainers only remove marks. */
  lemma {:induction false} EpochAfterFirstTrainer(cfg: Config, lines: seq<string>, l: Learner, js: seq<real>)
    requires Valid(l.sampler) && SamplerSpec(cfg)
    requires cfg.corpus == Some(lines) && cfg.nThreads >= 1
    requires var first := TrainerRun(cfg, TrimAll(cfg.env, lines) + Repeat(STOP_MARK, 2 * cfg.nThreads), l);
      first.Stopped? && first.rest == Repeat(STOP_MARK, 2 * cfg.nThreads - 1)
    ensures var first := TrainerRun(cfg, TrimAll(cfg.env, lines) + Repeat(STOP_MARK, 2 * cfg.nThreads), l);
      RunEpoch(cfg, [], l, js)
        == Finished(Repeat(STOP_MARK, cfg.nThreads), first.learner.(results := []), RecordCost(js, first.learner.results))
  {
    var n := cfg.nThreads;
    var q := TrimAll(cfg.env, lines) + Repeat(STOP_MARK, 2 * n);
    assert [] + q == q;
    TrainersAfterFirstStops(cfg, q, l, n);
    ProduceOnCorpus(cfg, lines);
    EpochOfJoinedTrainers(cfg, [], l, js, q, Repeat(STOP_MARK, n), TrainerRun(cfg, q, l).learner);
  }

  /** An epoch that finds `nThreads` stop marks at the head of the work queue
      trains nothing: each trainer removes one leftover mark first and stops,
      the learner and the cost history are unchanged, and this epoch's
      producer output joins whatever was queued behind the marks. */
  lemma {:induction false} LeftoverMarksStopNextEpoch(cfg: Config, lines: seq<string>, l: Learner, js: seq<real>,
                                                      tail: seq<string>)
    requires Valid(l.sampler) && SamplerSpec(cfg)
    requires cfg.corpus == Some(lines) && cfg.nThreads >= 1 && l.results == []
    ensures RunEpoch(cfg, Repeat(STOP_MARK, cfg.nThreads) + tail, l, js)
      == Finished(tail + (TrimAll(cfg.env, lines) + Repeat(STOP_MARK, 2 * cfg.nThreads)), l, js)
  {
    var n := cfg.nThreads;
    var items := TrimAll(cfg.env, lines) + Repeat(STOP_MARK, 2 * n);
    ProduceOnCorpus(cfg, lines);
    TrainersOnMarks(cfg, n, tail + items, l, n);
    AppendAssoc(Repeat(STOP_MARK, n), tail, items);
    assert Repeat(STOP_MARK, 0) + (tail + items) == tail + items;
    assert Iterations(n) == n;
    EpochOfJoinedTrainers(cfg, Repeat(STOP_MARK, n) + tail, l, js, items, tail + items, l);
    assert l.(results := []) == l;
  }

  /** The second call of `run` in the training loop trains nothing: the first
      leaves `nThreads` marks in the queue, which stop every trainer of the
      second before it reaches a sentence. The second ends with the learner
      and the cost history it started from, and the whole output of its
      producer queued. */
  lemma {:induction false} SecondEpochTrainsNothing(cfg: Config, lines: seq<string>, l: Learner, js: seq<real>)
    requires Valid(l.sampler) && SamplerSpec(cfg)
    requires cfg.corpus == Some(lines) && cfg.nThreads >= 1
    requires l.sampler.size == cfg.windowSize && l.results == []
    requires forall i :: 0 <= i < |lines| ==> cfg.env.trim(lines[i]) != STOP_MARK
    ensures var first := RunEpoch(cfg, [], l, js);
      && first.Finished?
      && RunEpoch(cfg, first.queue, first.learner, first.js)
           == Finished(TrimAll(cfg.env, lines) + Repeat(STOP_MARK, 2 * cfg.nThreads), first.learner, first.js)
  {
    EpochTrainsWholeCorpus(cfg, lines, l, js);
    var first := RunEpoch(cfg, [], l, js);
    var items := TrimAll(cfg.env, lines) + Repeat(STOP_MARK, 2 * cfg.nThreads);
    LeftoverMarksStopNextEpoch(cfg, lines, first.learner, first.js, []);
    assert first.queue + [] == first.queue;
    assert [] + items == items;
  }

  /** An epoch that finds the whole output of an earlier producer at the head
      of the queue trains on it: the first trainer indexes every line with a
      window and stops on the first of the old marks, the other trainers take
      one old mark each, and the remaining `nThreads` old marks stay ahead of
      whatever was queued behind and of this epoch's producer output, so the
      next epoch trains nothing again. */
  lemma {:induction false} LeftoverCorpusEpochTrains(cfg: Config, lines: seq<string>, l: Learner, js: seq<real>,
                                                     tail: seq<string>)
    requires Valid(l.sampler) && SamplerSpec(cfg)
    requires cfg.corpus == Some(lines) && cfg.nThreads >= 1
    requires l.sampler.size == cfg.windowSize && l.results == []
    requires forall i :: 0 <= i < |lines| ==> cfg.env.trim(lines[i]) != STOP_MARK
    ensures var done := Processed(cfg.env, cfg.windowSize, TrimAll(cfg.env, lines));
      var items := TrimAll(cfg.env, lines) + Repeat(STOP_MARK, 2 * cfg.nThreads);
      var r := RunEpoch(cfg, items + tail, l, js);
      && r.Finished?
      && r.queue == Repeat(STOP_MARK, cfg.nThreads) + (tail + items)
      && r.learner.sentences == l.sentences + done
      && |r.js| == |js| + (if |done| > 0 then 1 else 0)
      && r.js[..|js|] == js
  {
    var items := TrimAll(cfg.env, lines) + Repeat(STOP_MARK, 2 * cfg.nThreads);
    FirstTrainerTrainsCorpus(cfg, lines, l, 2 * cfg.nThreads, tail + items);
    LeftoverCorpusEpochAfterFirstTrainer(cfg, lines, l, js, tail);
  }

  /** Once the first trainer over a queue holding a producer output, a tail
      and a second producer output has stopped on the first mark, the epoch
      finishes with what it left: the other trainers each remove one of the
      old marks. */
  lemma {:induction false} LeftoverCorpusEpochAfterFirstTrainer(cfg: Config, lines: seq<string>, l: Learner,
                                                                js: seq<real>, tail: seq<string>)
    requires Valid(l.sampler) && SamplerSpec(cfg)
    requires cfg.corpus == Some(lines) && cfg.nThreads >= 1
    requires var items := TrimAll(cfg.env, lines) + Repeat(STOP_MARK, 2 * cfg.nThreads);
      var first := TrainerRun(cfg, items + (tail + items), l);
      first.Stopped? && first.rest == Repeat(STOP_MARK, 2 * cfg.nThreads - 1) + (tail + items)
    ensures var items := TrimAll(cfg.env, lines) + Repeat(STOP_MARK, 2 * cfg.nThreads);
      var first := TrainerRun(cfg, items + (tail + items), l);
      RunEpoch(cfg, items + tail, l, js)
        == Finished(Repeat(STOP_MARK, cfg.nThreads) + (tail + items), first.learner.(results := []),
                    RecordCost(js, first.learner.results))
  {
    var n := cfg.nThreads;
    var items := TrimAll(cfg.env, lines) + Repeat(STOP_MARK, 2 * n);
    var q := items + (tail + items);
    var first := TrainerRun(cfg, q, l);
    AppendAssoc(items, tail, items);
    TrainersOnMarks(cfg, 2 * n - 1, tail + items, first.learner, n - 1);
    assert RunTrainers(cfg, q, l, n) == RunTrainers(cfg, first.rest, first.learner, n - 1);
    assert 2 * n - 1 - (n - 1) == n;
    ProduceOnCorpus(cfg, lines);
    assert Iterations(n) == n;
    EpochOfJoinedTrainers(cfg, items + tail, l, js, items, Repeat(STOP_MARK, n) + (tail + items), first.learner);
  }

  /** The work queue makes the epochs alternate: the third call of `run` in the
      training loop trains on the whole corpus again, after the second trained
      nothing, and leaves `nThreads` marks ahead of the queue the second left. */
  lemma {:induction false} ThirdEpochTrainsAgain(cfg: Config, lines: seq<string>, l: Learner, js: seq<real>)
    requires Valid(l.sampler) && SamplerSpec(cfg)
    requires cfg.corpus == Some(lines) && cfg.nThreads >= 1
    requires l.sampler.size == cfg.windowSize && l.results == []
    requires forall i :: 0 <= i < |lines| ==> cfg.env.trim(lines[i]) != STOP_MARK
    ensures var done := Processed(cfg.env, cfg.windowSize, TrimAll(cfg.env, lines));
      var first := RunEpoch(cfg, [], l, js);
      && first.Finished?
      && var second := RunEpoch(cfg, first.queue, first.learner, first.js);
      && second.Finished?
      && var third := RunEpoch(cfg, second.queue, second.learner, second.js);
      && third.Finished?
      && third.learner.sentences == second.learner.sentences + done
      && |third.js| == |second.js| + (if |done| > 0 then 1 else 0)
      && third.queue == Repeat(STOP_MARK, cfg.nThreads) + second.queue
  {
    EpochTrainsWholeCorpus(cfg, lines, l, js);
    var first := RunEpoch(cfg, [], l, js);
    var items := TrimAll(cfg.env, lines) + Repeat(STOP_MARK, 2 * cfg.nThreads);
    LeftoverMarksStopNextEpoch(cfg, lines, first.learner, first.js, []);
    assert first.queue + [] == first.queue;
    assert [] + items == items;
    var second := RunEpoch(cfg, first.queue, first.learner, first.js);
    LeftoverCorpusEpochTrains(cfg, lines, second.learner, second.js, []);
    assert items + [] == items;
  }

  /** `run` as evidently intended: the stop marks still queued once the trainers
      are joined are discarded, so every epoch starts from an empty work queue. */
  function RunEpochDrained(cfg: Config, queue: seq<string>, l: Learner, js: seq<real>): (r: EpochEnd)
    requires Valid(l.sampler) && SamplerSpec(cfg)
    ensures r.ProducerExited? <==> cfg.corpus.None?
    ensures r.Finished? ==> r.queue == [] && Valid(r.learner.sampler) && r.learner.sampler.size == l.sampler.size
    ensures r.Finished? ==> r.learner.results == []
  {
    match RunEpoch(cfg, queue, l, js)
    case Finished(_, l', js') => Finished([], l', js')
    case other => other
  }

  /** A drained epoch from an empty queue trains on the whole corpus; like every
      finished drained epoch it leaves an empty queue behind. */
  lemma {:induction false} DrainedEpochTrainsWholeCorpus(cfg: Config, lines: seq<string>, l: Learner, js: seq<real>)
    requires Valid(l.sampler) && SamplerSpec(cfg)
    requires cfg.corpus == Some(lines) && cfg.nThreads >= 1
    requires l.sampler.size == cfg.windowSize && l.results == []
    requires forall i :: 0 <= i < |lines| ==> cfg.env.trim(lines[i]) != STOP_MARK
    ensures var done := Processed(cfg.env, cfg.windowSize, TrimAll(cfg.env, lines));
      var r := RunEpochDrained(cfg, [], l, js);
      && r.Finished?
      && r.learner.sentences == l.sentences + done
      && |r.js| == |js| + (if |done| > 0 then 1 else 0)
      && r.js[..|js|] == js
  {
    EpochTrainsWholeCorpus(cfg, lines, l, js);
  }

  /** With the queue drained, the second epoch trains on the whole corpus again,
      just like the first, and adds one entry to the history when the corpus
      has a sentence with windows. That entry is the mean of the second epoch's
      costs, which are computed from the state the first epoch left. */
  lemma {:induction false} DrainedEpochsEachTrainWholeCorpus(cfg: Config, lines: seq<string>, l: Learner, js: seq<real>)
    requires Valid(l.sampler) && SamplerSpec(cfg)
    requires cfg.corpus == Some(lines) && cfg.nThreads >= 1
    requires l.sampler.size == cfg.windowSize && l.results == []
    requires forall i :: 0 <= i < |lines| ==> cfg.env.trim(lines[i]) != STOP_MARK
    ensures var done := Processed(cfg.env, cfg.windowSize, TrimAll(cfg.env, lines));
      var first := RunEpochDrained(cfg, [], l, js);
      && first.Finished?
      && first.learner.sentences == l.sentences + done
      && |first.js| == |js| + (if |done| > 0 then 1 else 0)
      && first.js[..|js|] == js
      && var second := RunEpochDrained(cfg, first.queue, first.learner, first.js);
      && second.Finished?
      && second.learner.sentences == first.learner.sentences + done
      && |second.js| == |first.js| + (if |done| > 0 then 1 else 0)
      && second.js[..|first.js|] == first.js
  {
    DrainedEpochTrainsWholeCorpus(cfg, lines, l, js);
    var first := RunEpochDrained(cfg, [], l, js);
    DrainedEpochTrainsWholeCorpus(cfg, lines, first.learner, first.js);
  }

  /** `Sent2Vec::isConverge`: at least nine recorded costs, and the last one
      exceeds the one before by less than `convergence`. */
  function IsConverge(js: seq<real>, convergence: real): (b: bool)
    ensures |js| <= 8 ==> !b
    ensures b ==> js[|js| - 1] < js[|js| - 2] + convergence
  {
    |js| > 8 && js[|js| - 1] - js[|js| - 2] < convergence
  }

  /** Reference definition: the last step changes the cost by less than
      `convergence` in absolute value. */
  predicate SmallLastStep(js: seq<real>, convergence: real)
    requires |js| >= 2
  {
    var step := js[|js| - 1] - js[|js| - 2];
    (if step < 0.0 then -step else step) < convergence
  }

  /** A small last step in absolute value passes the gate; conversely, a history
      long enough that passes the gate has a last step that is small or a fall. */
  lemma IsConvergeRelatesToSmallStep(js: seq<real>, convergence: real)
    requires |js| > 8
    ensures SmallLastStep(js, convergence) ==> IsConverge(js, convergence)
    ensures IsConverge(js, convergence) <==>
      SmallLastStep(js, convergence) || (js[|js| - 1] < js[|js| - 2] && js[|js| - 1] - js[|js| - 2] < convergence)
  {
  }

  /** The gate compares a signed difference: any fall of the cost counts as
      convergence, however large. Nine costs whose last step falls by 100 pass
      the gate with `convergence = 0.01`, although the step is far from small. */
  lemma IsConvergeAcceptsLargeFall()
    ensures var js := [100.0, 100.0, 100.0, 100.0, 100.0, 100.0, 100.0, 100.0, 0.0];
      IsConverge(js, 0.01) && !SmallLastStep(js, 0.01)
  {
  }
}
