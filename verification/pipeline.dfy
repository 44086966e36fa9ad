/** The producer/consumer pipeline of one epoch (`Producer::run`, `Trainer::run`)
    as sequential functions over the contents of the work queue. The blocking
    queue and the threads are not modelled; a trainer that would wait on an empty
    queue forever is reported as `Starved`. The gradient arithmetic is not
    modelled either: a trainer records which sentences it indexed, which window
    keys it used as positive and negative contexts, and one abstract cost per
    processed sentence. */
module Pipeline {
  import opened Wrappers
  import opened Seqs
  import opened WindowKeys
  import opened Windows
  import opened WinCount
  import opened Sampler

  /** The sentinel the producer appends and a trainer stops on. */
  const STOP_MARK: string := "~!@#$%"

  /** The number of iterations of `for (int i = 0; i < 2*nThreads; ++i)`. */
  function StopMarkCount(nThreads: int): nat
  {
    if nThreads > 0 then 2 * nThreads else 0
  }

  function Repeat(x: string, n: nat): (r: seq<string>)
    ensures |r| == n
    ensures forall i :: 0 <= i < n ==> r[i] == x
  {
    if n == 0 then [] else [x] + Repeat(x, n - 1)
  }

  function TrimAll(env: Env, lines: seq<string>): (r: seq<string>)
    ensures |r| == |lines|
    ensures forall i :: 0 <= i < |lines| ==> r[i] == env.trim(lines[i])
  {
    if |lines| == 0 then [] else [env.trim(lines[0])] + TrimAll(env, lines[1..])
  }

  datatype Produced = Exited | Queue(items: seq<string>)

  /** `Producer::run`: the process exits when the corpus cannot be opened;
      otherwise every line, trimmed, in file order (empty lines included),
      followed by `2 * nThreads` stop marks. */
  function Produce(env: Env, corpus: Option<seq<string>>, nThreads: int): (r: Produced)
    ensures r.Exited? <==> corpus.None?
  {
    match corpus
    case None => Exited
    case Some(lines) => Queue(TrimAll(env, lines) + Repeat(STOP_MARK, StopMarkCount(nThreads)))
  }

  /** The queue the producer fills: the trimmed lines in file order, then only
      stop marks, at least `2 * nThreads` of them. */
  lemma ProduceContents(env: Env, lines: seq<string>, nThreads: int)
    ensures var r := Produce(env, Some(lines), nThreads);
      && |r.items| == |lines| + StopMarkCount(nThreads)
      && (forall i :: 0 <= i < |lines| ==> r.items[i] == env.trim(lines[i]))
      && (forall j :: |lines| <= j < |r.items| ==> r.items[j] == STOP_MARK)
      && multiset(r.items)[STOP_MARK] >= StopMarkCount(nThreads)
  {
    var items := TrimAll(env, lines) + Repeat(STOP_MARK, StopMarkCount(nThreads));
    assert Repeat(STOP_MARK, StopMarkCount(nThreads)) == items[|lines|..];
    MarksInRepeat(StopMarkCount(nThreads));
    assert multiset(items) == multiset(TrimAll(env, lines)) + multiset(Repeat(STOP_MARK, StopMarkCount(nThreads)));
  }

  lemma {:induction false} MarksInRepeat(n: nat)
    ensures multiset(Repeat(STOP_MARK, n))[STOP_MARK] == n
  {
    if n > 0 {
      MarksInRepeat(n - 1);
      assert Repeat(STOP_MARK, n) == [STOP_MARK] + Repeat(STOP_MARK, n - 1);
    }
  }

  /** Reference definitions over a queue: the items before its first stop mark,
      and the items after it. */
  function BeforeMark(q: seq<string>): (r: seq<string>)
    ensures STOP_MARK !in r
  {
    if |q| == 0 || q[0] == STOP_MARK then [] else [q[0]] + BeforeMark(q[1..])
  }

  function AfterMark(q: seq<string>): seq<string>
  {
    if |q| == 0 then [] else if q[0] == STOP_MARK then q[1..] else AfterMark(q[1..])
  }

  lemma {:induction false} SplitAtMark(xs: seq<string>, ys: seq<string>)
    requires STOP_MARK !in xs
    ensures BeforeMark(xs + [STOP_MARK] + ys) == xs
    ensures AfterMark(xs + [STOP_MARK] + ys) == ys
  {
    var q := xs + [STOP_MARK] + ys;
    if |xs| == 0 {
      assert q[1..] == ys;
    } else {
      assert q[1..] == xs[1..] + [STOP_MARK] + ys;
      SplitAtMark(xs[1..], ys);
      assert [xs[0]] + xs[1..] == xs;
    }
  }

  /** The sentences a trainer processes: those with at least one window. */
  function Processed(env: Env, windowSize: int, sentences: seq<string>): seq<string>
  {
    if |sentences| == 0 then []
    else
      var rest := Processed(env, windowSize, sentences[1..]);
      if |GenWindowsFromSentence(env, sentences[0], windowSize)| > 0 then [sentences[0]] + rest else rest
  }

  /** The total number of windows of a sequence of sentences. */
  function WindowTotal(env: Env, windowSize: int, sentences: seq<string>): nat
  {
    if |sentences| == 0 then 0
    else |GenWindowsFromSentence(env, sentences[0], windowSize)| + WindowTotal(env, windowSize, sentences[1..])
  }

  lemma WindowTotalCons(env: Env, windowSize: int, s: string, xs: seq<string>)
    ensures WindowTotal(env, windowSize, [s] + xs)
      == |GenWindowsFromSentence(env, s, windowSize)| + WindowTotal(env, windowSize, xs)
  {
    assert ([s] + xs)[1..] == xs;
  }

  /** Whether `genTable` would abort: the corpus cannot be read or has no window. */
  predicate Windowless(env: Env, corpus: Option<seq<string>>, size: int)
  {
    corpus.None? || CorpusWindowCount(env, corpus.value, size) == 0
  }

  /** The training configuration and the collaborators it is abstracted over.
      `sample` is the window table's `getSamples`, as a function of the table's
      state and `k`. `cost` stands for the cost `Jn` a trainer computes for a
      sentence from the embeddings as its windows update them. The embeddings
      are not modelled, but they are determined by the training done so far,
      which the learner after the sentence's windows records (every sentence
      indexed and every positive and negative context, in order); so the cost
      is a function of that learner and the sentence, and the same sentence
      may cost differently in a later epoch. */
  datatype Config = Config(
    env: Env,
    corpus: Option<seq<string>>,
    windowSize: int,
    nThreads: int,
    k: int,
    sample: (WindowTable, int) -> SampleResult,
    cost: (Learner, string) -> real)

  /** The `getSamples` of a table counted over `corpus` with sampling weights
      `weight`. */
  function SamplerOf(env: Env, corpus: Option<seq<string>>, weight: (nat, seq<nat>) -> real):
    (sample: (WindowTable, int) -> SampleResult)
  {
    (wt: WindowTable, k: int) => if Valid(wt) then GetSamples(wt, env, corpus, weight, k) else Aborted
  }

  /** What a trainer relies on from `getSamples`: it aborts exactly when no table
      exists and none can be built, and otherwise draws `k` samples (none for a
      negative `k`) and leaves a valid table of the same window size behind. */
  ghost predicate SamplerSpec(cfg: Config)
  {
    forall wt: WindowTable, k: int {:trigger cfg.sample(wt, k)} :: Valid(wt) ==>
      && (cfg.sample(wt, k).Aborted? <==> |wt.table| == 0 && Windowless(cfg.env, cfg.corpus, wt.size))
      && (cfg.sample(wt, k).Sampled? ==>
            && Valid(cfg.sample(wt, k).next)
            && |cfg.sample(wt, k).next.table| > 0
            && |cfg.sample(wt, k).samples| == Iterations(k)
            && cfg.sample(wt, k).next.size == wt.size)
  }

  /** The window table's own `getSamples` meets what a trainer relies on. */
  lemma SamplerOfMeetsSpec(cfg: Config, weight: (nat, seq<nat>) -> real)
    requires cfg.sample == SamplerOf(cfg.env, cfg.corpus, weight)
    ensures SamplerSpec(cfg)
  {
    forall wt: WindowTable, k: int | Valid(wt)
      ensures cfg.sample(wt, k) == GetSamples(wt, cfg.env, cfg.corpus, weight, k)
    {
    }
  }

  /** What training leaves behind, besides the embeddings: the sentences given
      an index (`sent.index`), the window keys used as positive and as negative
      contexts, in order, the cost buffer `results`, and the sampler. */
  datatype Learner = Learner(
    sampler: WindowTable,
    sentences: seq<string>,
    positives: seq<string>,
    negatives: seq<string>,
    results: seq<real>)

  /** `Fail`: the first draw tried to build the table from a corpus without
      windows and the process aborted. */
  datatype Step = Fail | Ok(learner: Learner)

  /** One window of a trainer: the window's own key is the positive context,
      then `k` negative samples are drawn; the first draw may build the table. */
  function TrainWindow(cfg: Config, l: Learner, window: seq<string>): (r: Step)
    requires Valid(l.sampler) && SamplerSpec(cfg)
    ensures r.Ok? ==> Valid(r.learner.sampler) && r.learner.sampler.size == l.sampler.size
  {
    match cfg.sample(l.sampler, cfg.k)
    case Aborted => Fail
    case Sampled(noise, next) =>
      Ok(l.(sampler := next,
            positives := l.positives + [WindowKey(cfg.env, window)],
            negatives := l.negatives + noise))
  }

  /** A window aborts exactly when no table exists and none can be built;
      otherwise it leaves a built table, adds its key as a positive context and
      `k` negative samples, and touches neither the indexed sentences nor the
      costs. */
  lemma TrainWindowEffects(cfg: Config, l: Learner, window: seq<string>)
    requires Valid(l.sampler) && SamplerSpec(cfg)
    ensures var r := TrainWindow(cfg, l, window);
      && (r.Fail? <==> |l.sampler.table| == 0 && Windowless(cfg.env, cfg.corpus, l.sampler.size))
      && (r.Ok? ==>
            && |r.learner.sampler.table| > 0
            && r.learner.sentences == l.sentences
            && r.learner.results == l.results
            && r.learner.positives == l.positives + [WindowKey(cfg.env, window)]
            && |r.learner.negatives| == |l.negatives| + Iterations(cfg.k))
  {
  }

  /** The window loop of a trainer, left to right. */
  function TrainWindows(cfg: Config, l: Learner, windows: seq<seq<string>>): (r: Step)
    requires Valid(l.sampler) && SamplerSpec(cfg)
    decreases |windows|
    ensures r.Ok? ==> Valid(r.learner.sampler) && r.learner.sampler.size == l.sampler.size
  {
    if |windows| == 0 then Ok(l)
    else
      match TrainWindow(cfg, l, windows[0])
      case Fail => Fail
      case Ok(l') => TrainWindows(cfg, l', windows[1..])
  }

  /** The window loop aborts only on its first window, when no table exists and
      none can be built; a built table stays built; the indexed sentences and
      the costs are not touched. */
  lemma {:induction false} TrainWindowsEffects(cfg: Config, l: Learner, windows: seq<seq<string>>)
    requires Valid(l.sampler) && SamplerSpec(cfg)
    decreases |windows|
    ensures var r := TrainWindows(cfg, l, windows);
      && (r.Fail? ==> |windows| > 0 && |l.sampler.table| == 0 && Windowless(cfg.env, cfg.corpus, l.sampler.size))
      && (r.Ok? && |l.sampler.table| > 0 ==> |r.learner.sampler.table| > 0)
      && (r.Ok? ==> r.learner.sentences == l.sentences && r.learner.results == l.results)
  {
    if |windows| > 0 {
      TrainWindowEffects(cfg, l, windows[0]);
      var first := TrainWindow(cfg, l, windows[0]);
      if first.Ok? {
        TrainWindowsEffects(cfg, first.learner, windows[1..]);
      }
    }
  }

  /** The positive contexts of the window loop are the windows' keys, one per
      window in window order. */
  lemma {:induction false} TrainWindowsPositives(cfg: Config, l: Learner, windows: seq<seq<string>>)
    requires Valid(l.sampler) && SamplerSpec(cfg)
    ensures var r := TrainWindows(cfg, l, windows);
      r.Ok? ==> r.learner.positives == l.positives + WindowsToKeys(cfg.env, windows)
    decreases |windows|
  {
    if |windows| > 0 {
      var first := TrainWindow(cfg, l, windows[0]);
      TrainWindowEffects(cfg, l, windows[0]);
      if first.Ok? {
        TrainWindowsPositives(cfg, first.learner, windows[1..]);
        AppendAssoc(l.positives, [WindowKey(cfg.env, windows[0])], WindowsToKeys(cfg.env, windows[1..]));
      }
    }
  }

  /** The number of negative samples `n` windows draw: `k` each, none when `k`
      is negative. */
  function DrawsFor(n: nat, k: int): (r: nat)
  {
    if n == 0 then 0 else Iterations(k) + DrawsFor(n - 1, k)
  }

  lemma {:induction false} DrawsForIsProduct(n: nat, k: int)
    ensures DrawsFor(n, k) == n * Iterations(k)
  {
    if n > 0 {
      DrawsForIsProduct(n - 1, k);
    }
  }

  /** Each window draws exactly `k` negative samples (none when `k` is negative). */
  lemma {:induction false} TrainWindowsDraws(cfg: Config, l: Learner, windows: seq<seq<string>>)
    requires Valid(l.sampler) && SamplerSpec(cfg)
    ensures var r := TrainWindows(cfg, l, windows);
      r.Ok? ==> |r.learner.negatives| == |l.negatives| + DrawsFor(|windows|, cfg.k)
    decreases |windows|
  {
    if |windows| > 0 {
      var first := TrainWindow(cfg, l, windows[0]);
      TrainWindowEffects(cfg, l, windows[0]);
      if first.Ok? {
        TrainWindowsDraws(cfg, first.learner, windows[1..]);
        assert TrainWindows(cfg, l, windows) == TrainWindows(cfg, first.learner, windows[1..]);
      }
    }
  }

  /** One sentence of `Trainer::run`: a sentence without windows is skipped, with
      no index and no cost; otherwise it gets an index, its windows are trained,
      and exactly one cost is appended, computed from the state the windows
      leave. */
  function TrainSentence(cfg: Config, l: Learner, sentence: string): (r: Step)
    requires Valid(l.sampler) && SamplerSpec(cfg)
    ensures r.Ok? ==> Valid(r.learner.sampler) && r.learner.sampler.size == l.sampler.size
  {
    var windows := GenWindowsFromSentence(cfg.env, sentence, cfg.windowSize);
    if |windows| == 0 then Ok(l)
    else
      match TrainWindows(cfg, l.(sentences := l.sentences + [sentence]), windows)
      case Fail => Fail
      case Ok(l') => Ok(l'.(results := l'.results + [cfg.cost(l', sentence)]))
  }

  /** A windowless sentence changes nothing; a sentence aborts only when it has
      windows and no table exists or can be built; a trained sentence is indexed
      once and contributes exactly one cost, that of the sentence in the state
      it leaves besides the cost buffer; a built table stays built. */
  lemma TrainSentenceEffects(cfg: Config, l: Learner, sentence: string)
    requires Valid(l.sampler) && SamplerSpec(cfg)
    ensures var r := TrainSentence(cfg, l, sentence);
      var n := |GenWindowsFromSentence(cfg.env, sentence, cfg.windowSize)|;
      && (n == 0 ==> r == Ok(l))
      && (r.Fail? ==> n > 0 && |l.sampler.table| == 0 && Windowless(cfg.env, cfg.corpus, l.sampler.size))
      && (r.Ok? && n > 0 ==>
            && r.learner.sentences == l.sentences + [sentence]
            && r.learner.results == l.results + [cfg.cost(r.learner.(results := l.results), sentence)])
      && (r.Ok? && |l.sampler.table| > 0 ==> |r.learner.sampler.table| > 0)
  {
    var windows := GenWindowsFromSentence(cfg.env, sentence, cfg.windowSize);
    if |windows| > 0 {
      TrainWindowsEffects(cfg, l.(sentences := l.sentences + [sentence]), windows);
    }
  }

  /** A sentence's windows draw `k` negative samples each. */
  lemma TrainSentenceDraws(cfg: Config, l: Learner, sentence: string)
    requires Valid(l.sampler) && SamplerSpec(cfg)
    ensures var r := TrainSentence(cfg, l, sentence);
      r.Ok? ==>
        |r.learner.negatives|
          == |l.negatives| + DrawsFor(|GenWindowsFromSentence(cfg.env, sentence, cfg.windowSize)|, cfg.k)
  {
    var windows := GenWindowsFromSentence(cfg.env, sentence, cfg.windowSize);
    if |windows| > 0 {
      TrainWindowsDraws(cfg, l.(sentences := l.sentences + [sentence]), windows);
    }
  }

  /** How a trainer ends: on a stop mark, with the queue left behind; waiting
      forever on an empty queue; or with the process aborted. */
  datatype TrainerEnd = Stopped(rest: seq<string>, learner: Learner) | Starved(learner: Learner) | Failed

  /** `Trainer::run` over the queue contents it removes. */
  function TrainerRun(cfg: Config, q: seq<string>, l: Learner): (r: TrainerEnd)
    requires Valid(l.sampler) && SamplerSpec(cfg)
    decreases |q|
    ensures !r.Failed? ==> Valid(r.learner.sampler) && r.learner.sampler.size == l.sampler.size
  {
    if |q| == 0 then Starved(l)
    else if q[0] == STOP_MARK then Stopped(q[1..], l)
    else
      match TrainSentence(cfg, l, q[0])
      case Fail => Failed
      case Ok(l') => TrainerRun(cfg, q[1..], l')
  }

  /** A trainer consumes the queue up to and including its first stop mark and
      nothing after it, and it starves only when the queue holds no mark. */
  lemma {:induction false} TrainerStopsAtFirstMark(cfg: Config, q: seq<string>, l: Learner)
    requires Valid(l.sampler) && SamplerSpec(cfg)
    ensures var r := TrainerRun(cfg, q, l);
      && (r.Stopped? ==> STOP_MARK in q && r.rest == AfterMark(q))
      && (r.Starved? ==> STOP_MARK !in q)
      && (STOP_MARK in q ==> !r.Starved?)
    decreases |q|
  {
    if |q| > 0 && q[0] != STOP_MARK {
      var step := TrainSentence(cfg, l, q[0]);
      if step.Ok? {
        TrainerStopsAtFirstMark(cfg, q[1..], step.learner);
        assert q == [q[0]] + q[1..];
      }
    }
  }

  /** A trainer aborts only when the table has not been built yet, the corpus
      has no window, and a sentence before the first mark has windows. */
  lemma {:induction false} TrainerFailsOnlyWithoutTable(cfg: Config, q: seq<string>, l: Learner)
    requires Valid(l.sampler) && SamplerSpec(cfg)
    ensures TrainerRun(cfg, q, l).Failed? ==>
      |l.sampler.table| == 0 && |Processed(cfg.env, cfg.windowSize, BeforeMark(q))| > 0
      && (Windowless(cfg.env, cfg.corpus, l.sampler.size))
    decreases |q|
  {
    if |q| > 0 && q[0] != STOP_MARK {
      var step := TrainSentence(cfg, l, q[0]);
      TrainSentenceEffects(cfg, l, q[0]);
      if step.Ok? {
        TrainerFailsOnlyWithoutTable(cfg, q[1..], step.learner);
        if |GenWindowsFromSentence(cfg.env, q[0], cfg.windowSize)| == 0 {
          assert step.learner == l;
        }
      }
    }
  }

  /** The sentences a trainer indexes and the costs it appends: one of each for
      every sentence before the first mark that has windows, in queue order;
      the costs already buffered are kept. */
  lemma {:induction false} TrainerProcessesSentencesBeforeMark(cfg: Config, q: seq<string>, l: Learner)
    requires Valid(l.sampler) && SamplerSpec(cfg)
    ensures var r := TrainerRun(cfg, q, l);
      !r.Failed? ==>
        && r.learner.sentences == l.sentences + Processed(cfg.env, cfg.windowSize, BeforeMark(q))
        && |r.learner.results| == |l.results| + |Processed(cfg.env, cfg.windowSize, BeforeMark(q))|
        && r.learner.results[..|l.results|] == l.results
    decreases |q|
  {
    if |q| > 0 && q[0] != STOP_MARK {
      var s := q[0];
      var step := TrainSentence(cfg, l, s);
      TrainSentenceEffects(cfg, l, s);
      if step.Ok? {
        TrainerProcessesSentencesBeforeMark(cfg, q[1..], step.learner);
        assert TrainerRun(cfg, q, l) == TrainerRun(cfg, q[1..], step.learner);
        var before := Processed(cfg.env, cfg.windowSize, BeforeMark(q[1..]));
        if |GenWindowsFromSentence(cfg.env, s, cfg.windowSize)| > 0 {
          assert Processed(cfg.env, cfg.windowSize, BeforeMark(q)) == [s] + before;
          AppendAssoc(l.sentences, [s], before);
          var r := TrainerRun(cfg, q, l);
          if !r.Failed? {
            assert r.learner.results[..|l.results|] == r.learner.results[..|step.learner.results|][..|l.results|];
          }
        }
      }
    }
  }

  lemma {:induction false} DrawsForAdd(a: nat, b: nat, k: int)
    ensures DrawsFor(a + b, k) == DrawsFor(a, k) + DrawsFor(b, k)
  {
    if a > 0 {
      DrawsForAdd(a - 1, b, k);
    }
  }

  /** Every window of a sentence before the first mark draws exactly `k`
      negative samples. */
  lemma {:induction false} TrainerDrawsPerWindow(cfg: Config, q: seq<string>, l: Learner)
    requires Valid(l.sampler) && SamplerSpec(cfg)
    ensures var r := TrainerRun(cfg, q, l);
      !r.Failed? ==>
        |r.learner.negatives|
          == |l.negatives| + DrawsFor(WindowTotal(cfg.env, cfg.windowSize, BeforeMark(q)), cfg.k)
    decreases |q|
  {
    if |q| > 0 && q[0] != STOP_MARK {
      var step := TrainSentence(cfg, l, q[0]);
      if step.Ok? {
        TrainerRunSentence(cfg, q, l);
        var rest := TrainerRun(cfg, q[1..], step.learner);
        if !rest.Failed? {
          TrainerDrawsPerWindow(cfg, q[1..], step.learner);
          TrainSentenceDraws(cfg, l, q[0]);
          var n := |GenWindowsFromSentence(cfg.env, q[0], cfg.windowSize)|;
          var w := WindowTotal(cfg.env, cfg.windowSize, BeforeMark(q[1..]));
          DrawsForAdd(n, w, cfg.k);
        }
      } else {
        assert TrainerRun(cfg, q, l).Failed?;
      }
    } else {
      TrainerRunAtMark(cfg, q, l);
      assert BeforeMark(q) == [];
      assert WindowTotal(cfg.env, cfg.windowSize, []) == 0 && DrawsFor(0, cfg.k) == 0;
    }
  }

  /** A trainer that trains its first sentence goes on with the rest of the
      queue, and the sentence's windows count towards those before the mark. */
  lemma TrainerRunSentence(cfg: Config, q: seq<string>, l: Learner)
    requires Valid(l.sampler) && SamplerSpec(cfg)
    requires |q| > 0 && q[0] != STOP_MARK && TrainSentence(cfg, l, q[0]).Ok?
    ensures TrainerRun(cfg, q, l) == TrainerRun(cfg, q[1..], TrainSentence(cfg, l, q[0]).learner)
    ensures WindowTotal(cfg.env, cfg.windowSize, BeforeMark(q))
      == |GenWindowsFromSentence(cfg.env, q[0], cfg.windowSize)| + WindowTotal(cfg.env, cfg.windowSize, BeforeMark(q[1..]))
  {
    WindowTotalCons(cfg.env, cfg.windowSize, q[0], BeforeMark(q[1..]));
    assert BeforeMark(q) == [q[0]] + BeforeMark(q[1..]);
  }

  /** A trainer facing an empty queue or a stop mark trains nothing. */
  lemma TrainerRunAtMark(cfg: Config, q: seq<string>, l: Learner)
    requires Valid(l.sampler) && SamplerSpec(cfg)
    requires |q| == 0 || q[0] == STOP_MARK
    ensures TrainerRun(cfg, q, l) == if |q| == 0 then Starved(l) else Stopped(q[1..], l)
  {
  }

  /** An interleaving of `Trainer::run` over a shared queue: `schedule` says which
      trainer performs each successive `remove()`. A trainer that has removed a
      stop mark has stopped and removes nothing more; one that finds the queue
      empty waits and removes nothing. */
  function Interleave(q: seq<string>, schedule: seq<nat>, finished: set<nat>): (r: (seq<string>, set<nat>))
    decreases |schedule|
  {
    if |schedule| == 0 then (q, finished)
    else
      var t := schedule[0];
      if t in finished || |q| == 0 then Interleave(q, schedule[1..], finished)
      else if q[0] == STOP_MARK then Interleave(q[1..], schedule[1..], finished + {t})
      else Interleave(q[1..], schedule[1..], finished)
  }

  /** Each trainer removes at most one stop mark: the marks removed under any
      schedule are exactly as many as the trainers that stopped. */
  lemma {:induction false} InterleaveConsumesOneMarkPerTrainer(q: seq<string>, schedule: seq<nat>, finished: set<nat>)
    ensures var (rest, done) := Interleave(q, schedule, finished);
      && finished <= done
      && (forall t :: t in done - finished ==> t in schedule)
      && multiset(q)[STOP_MARK] == multiset(rest)[STOP_MARK] + |done - finished|
    decreases |schedule|
  {
    if |schedule| > 0 {
      var t := schedule[0];
      if t in finished || |q| == 0 {
        InterleaveConsumesOneMarkPerTrainer(q, schedule[1..], finished);
      } else {
        assert q == [q[0]] + q[1..];
        if q[0] == STOP_MARK {
          InterleaveConsumesOneMarkPerTrainer(q[1..], schedule[1..], finished + {t});
          var (rest, done) := Interleave(q[1..], schedule[1..], finished + {t});
          assert done - finished == (done - (finished + {t})) + {t};
        } else {
          InterleaveConsumesOneMarkPerTrainer(q[1..], schedule[1..], finished);
        }
      }
    }
  }

  lemma {:induction false} BoundedSetSize(s: set<nat>, n: nat)
    requires forall t :: t in s ==> t < n
    ensures |s| <= n
  {
    if n > 0 {
      BoundedSetSize(s - {n - 1}, n - 1);
    } else {
      assert s == {};
    }
  }

  /** Whatever the interleaving of `nThreads` trainers over the producer's queue,
      at least `nThreads` of the stop marks are never removed, so a mark is left
      for every trainer that has not stopped yet. */
  lemma {:induction false} SentinelsNeverExhausted(env: Env, lines: seq<string>, nThreads: nat, schedule: seq<nat>)
    requires forall i :: 0 <= i < |schedule| ==> schedule[i] < nThreads
    ensures var (rest, done) := Interleave(Produce(env, Some(lines), nThreads).items, schedule, {});
      |done| <= nThreads && multiset(rest)[STOP_MARK] >= nThreads + (nThreads - |done|)
  {
    var q := Produce(env, Some(lines), nThreads).items;
    ProduceContents(env, lines, nThreads);
    InterleaveConsumesOneMarkPerTrainer(q, schedule, {});
    var (rest, done) := Interleave(q, schedule, {});
    BoundedSetSize(done, nThreads);
  }
}
