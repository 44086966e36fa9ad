/** The `WindowTable` object: its random-index chain (`init`) and the drawing of
    negative samples (`getSamples`), which builds the table on first use. The
    object's mutable members become the fields of a value and each call returns
    the next value, so a draw is a pure transition on
    `(rands, currentRandom, table)`. */
module Sampler {
  import opened Wrappers
  import opened Seqs
  import opened WindowKeys
  import opened Windows
  import opened WinCount
  import opened SamplingTable

  const RAND_TABLE_SIZE: nat := 200000
  /** The cursor `init` starts the chain from. */
  const INITIAL_CURSOR: nat := 27

  /** `table` is empty until the first draw builds it; `winCountVec` is the key
      list the table's entries index into. */
  datatype WindowTable = WindowTable(
    size: int,
    tableSize: nat,
    rands: seq<nat>,
    currentRandom: nat,
    table: seq<nat>,
    winCountVec: WinCountDic)

  predicate Valid(wt: WindowTable)
  {
    && wt.tableSize > 0
    && |wt.rands| == RAND_TABLE_SIZE
    && (forall i :: 0 <= i < |wt.rands| ==> wt.rands[i] < wt.tableSize)
    && (|wt.table| > 0 ==>
          && |wt.table| == wt.tableSize
          && (forall a :: 0 <= a < |wt.table| ==> wt.table[a] < |wt.winCountVec|))
  }

  /** `init`. Its parameter `TABLE_SIZE` (`modulus`) shadows the constant member
      the constructor fixed (`tableSize`, the size the table is built with), so
      each of the `RAND_TABLE_SIZE` values `rand()` returns (`rng`) is reduced
      modulo `init`'s argument, not the table's size. The cursor starts at 27
      and no table exists yet. The random indices stay within the table only
      when `init`'s argument is at most the constructor's; both default to
      `1e7`. */
  function Init(size: int, tableSize: nat, modulus: nat, rng: seq<nat>): (wt: WindowTable)
    requires modulus > 0 && |rng| == RAND_TABLE_SIZE
    ensures |wt.rands| == RAND_TABLE_SIZE
    ensures forall i :: 0 <= i < RAND_TABLE_SIZE ==> wt.rands[i] == rng[i] % modulus
    ensures wt.currentRandom == INITIAL_CURSOR && wt.table == []
    ensures wt.size == size && wt.tableSize == tableSize
    ensures 0 < tableSize && modulus <= tableSize ==> Valid(wt)
  {
    WindowTable(size, tableSize,
      seq(RAND_TABLE_SIZE, i requires 0 <= i < RAND_TABLE_SIZE => rng[i] % modulus),
      INITIAL_CURSOR, [], [])
  }

  /** When `init`'s argument exceeds the table's size, a random index can point
      past the end of the table: `rand()` returning the table's size everywhere
      gives an object whose cursor chain leaves the table. */
  lemma InitPastTable(size: int, tableSize: nat, modulus: nat)
    requires 0 < tableSize < modulus
    ensures !Valid(Init(size, tableSize, modulus, seq(RAND_TABLE_SIZE, i => tableSize)))
  {
    var wt := Init(size, tableSize, modulus, seq(RAND_TABLE_SIZE, i => tableSize));
    assert wt.rands[0] == tableSize;
  }

  /** `currentRandom = rands[currentRandom % RAND_TABLE_SIZE]`: the cursor after
      `cursor` is always a valid position of the table. */
  function NextCursor(wt: WindowTable, cursor: nat): (c: nat)
    requires Valid(wt)
    ensures c < wt.tableSize
  {
    wt.rands[cursor % RAND_TABLE_SIZE]
  }

  /** The samples of a run of the chain and the cursor it stops on. */
  datatype Chain = Chain(samples: seq<string>, cursor: nat)

  /** `k` steps of the cursor chain over a built table from `cursor`, each
      yielding the key at the table entry the new cursor points to. */
  function Draw(wt: WindowTable, cursor: nat, k: nat): (r: Chain)
    requires Valid(wt) && |wt.table| > 0
    decreases k
    ensures |r.samples| == k
    ensures k > 0 ==> r.cursor < wt.tableSize
    ensures k == 0 ==> r.cursor == cursor
  {
    if k == 0 then Chain([], cursor)
    else
      var c := NextCursor(wt, cursor);
      var rest := Draw(wt, c, k - 1);
      Chain([wt.winCountVec[wt.table[c]].key] + rest.samples, rest.cursor)
  }

  /** Every sample is a key of `winCountVec`. */
  lemma {:induction false} DrawnAreKeys(wt: WindowTable, cursor: nat, k: nat)
    requires Valid(wt) && |wt.table| > 0
    decreases k
    ensures forall s :: s in Draw(wt, cursor, k).samples ==> s in Keys(wt.winCountVec)
  {
    if k > 0 {
      var c := NextCursor(wt, cursor);
      DrawnAreKeys(wt, c, k - 1);
      assert wt.winCountVec[wt.table[c]].key in Keys(wt.winCountVec);
    }
  }

  /** The chain reads only the random indices, the table and the key list:
      two objects that agree on those draw the same samples from the same
      cursor, whatever their stored cursor, window size or table size. */
  lemma {:induction false} DrawDependsOnly(wt1: WindowTable, wt2: WindowTable, cursor: nat, k: nat)
    requires Valid(wt1) && |wt1.table| > 0 && Valid(wt2) && |wt2.table| > 0
    requires wt1.rands == wt2.rands && wt1.table == wt2.table && wt1.winCountVec == wt2.winCountVec
    decreases k
    ensures Draw(wt1, cursor, k) == Draw(wt2, cursor, k)
  {
    if k > 0 {
      DrawDependsOnly(wt1, wt2, NextCursor(wt1, cursor), k - 1);
    }
  }

  /** Drawing `k1 + k2` samples is drawing `k1` and then `k2` from where the
      cursor stopped. */
  lemma {:induction false} DrawConcat(wt: WindowTable, cursor: nat, k1: nat, k2: nat)
    requires Valid(wt) && |wt.table| > 0
    decreases k1
    ensures var first := Draw(wt, cursor, k1);
      var second := Draw(wt, first.cursor, k2);
      Draw(wt, cursor, k1 + k2) == Chain(first.samples + second.samples, second.cursor)
  {
    if k1 > 0 {
      var c := NextCursor(wt, cursor);
      DrawConcat(wt, c, k1 - 1, k2);
      assert k1 + k2 - 1 == (k1 - 1) + k2;
      var tail := Draw(wt, c, k1 - 1);
      AppendAssoc([wt.winCountVec[wt.table[c]].key], tail.samples, Draw(wt, tail.cursor, k2).samples);
    }
  }

  datatype SampleResult = Aborted | Sampled(samples: seq<string>, next: WindowTable)

  /** The number of iterations of `for (int i = 0; i < k; i++)`. */
  function Iterations(k: int): nat
  {
    if k < 0 then 0 else k
  }

  /** `getSamples(k)`. If the table is empty it is built first from the corpus
      (`genTable`), which aborts when the corpus has no window; an existing
      table is never rebuilt. Then `k` samples are drawn through the cursor
      chain, none when `k` is negative. Each sample is a key of the key list, and
      a table built here lists exactly the window keys of the corpus. */
  function GetSamples(wt: WindowTable, env: Env, corpus: Option<seq<string>>,
                      weight: (nat, seq<nat>) -> real, k: int): (r: SampleResult)
    requires Valid(wt)
    ensures r.Aborted? <==>
      |wt.table| == 0 && (corpus.None? || CorpusWindowCount(env, corpus.value, wt.size) == 0)
    ensures r.Sampled? ==>
      && Valid(r.next)
      && |r.next.table| > 0
      && |r.samples| == Iterations(k)
      && (forall s :: s in r.samples ==> s in Keys(r.next.winCountVec))
      && r.next.rands == wt.rands && r.next.size == wt.size && r.next.tableSize == wt.tableSize
    ensures r.Sampled? && |wt.table| > 0 ==>
      r.next.table == wt.table && r.next.winCountVec == wt.winCountVec
    ensures r.Sampled? && |wt.table| == 0 ==>
      forall s :: s in r.samples ==> s in CorpusKeys(env, corpus.value, wt.size)
  {
    if |wt.table| > 0 then
      DrawnAreKeys(wt, wt.currentRandom, Iterations(k));
      var d := Draw(wt, wt.currentRandom, Iterations(k));
      Sampled(d.samples, wt.(currentRandom := d.cursor))
    else
      match BuildTable(env, corpus, wt.size, weight, wt.tableSize)
      case None => Aborted
      case Some(t) =>
        var built := wt.(table := t.entries, winCountVec := t.winCountVec);
        DrawnAreKeys(built, built.currentRandom, Iterations(k));
        var d := Draw(built, built.currentRandom, Iterations(k));
        Sampled(d.samples, built.(currentRandom := d.cursor))
  }

  /** Drawing twice from a built table gives the samples of one draw of the
      combined size: the sampler keeps no hidden state besides the cursor. */
  lemma GetSamplesTwice(wt: WindowTable, env: Env, corpus: Option<seq<string>>,
                        weight: (nat, seq<nat>) -> real, k1: nat, k2: nat)
    requires Valid(wt) && |wt.table| > 0
    ensures var first := GetSamples(wt, env, corpus, weight, k1);
      var second := GetSamples(first.next, env, corpus, weight, k2);
      var both := GetSamples(wt, env, corpus, weight, k1 + k2);
      first.Sampled? && second.Sampled? && both.Sampled?
      && both.samples == first.samples + second.samples && both.next == second.next
  {
    DrawConcat(wt, wt.currentRandom, k1, k2);
    var first := Draw(wt, wt.currentRandom, k1);
    DrawDependsOnly(wt.(currentRandom := first.cursor), wt, first.cursor, k2);
  }

  /** Once the table is built, `getSamples` is determined by the random
      indices, the cursor, the table and the key list: two objects that agree
      on those give the same samples and the same next cursor, whatever the
      corpus, the weights or the other fields. */
  lemma GetSamplesDependsOnly(wt1: WindowTable, env1: Env, corpus1: Option<seq<string>>,
                              weight1: (nat, seq<nat>) -> real,
                              wt2: WindowTable, env2: Env, corpus2: Option<seq<string>>,
                              weight2: (nat, seq<nat>) -> real, k: int)
    requires Valid(wt1) && |wt1.table| > 0 && Valid(wt2)
    requires wt1.rands == wt2.rands && wt1.currentRandom == wt2.currentRandom
    requires wt1.table == wt2.table && wt1.winCountVec == wt2.winCountVec
    ensures var r1 := GetSamples(wt1, env1, corpus1, weight1, k);
      var r2 := GetSamples(wt2, env2, corpus2, weight2, k);
      && r1.Sampled? && r2.Sampled?
      && r1.samples == r2.samples
      && r1.next.currentRandom == r2.next.currentRandom
  {
    DrawDependsOnly(wt1, wt2, wt1.currentRandom, Iterations(k));
  }
}
