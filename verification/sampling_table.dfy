/** The fill of the negative-sampling table (`genTable`). Entry `a` of the table
    is an index into `winCountVec`, the window-count map listed in key order. The
    source walks the keys with a cursor `i` and a running mass `d1`, moving to
    the next key while `a / TABLE_SIZE` exceeds the mass accumulated so far.

    The per-key weights are the floating-point values `pow(count / Z, POWER)`;
    here they are an abstract weight function and the arithmetic is exact. The
    structural invariants proved below (first entry 0, steps of 0 or 1, entries
    below the number of keys) hold whatever the weights are. */
module SamplingTable {
  import opened Wrappers
  import opened Seqs
  import opened WindowKeys
  import opened Windows
  import opened WinCount

  /** The total weight of keys `0 ..= i`. */
  function Cumulative(w: seq<real>, i: nat): real
    requires i < |w|
  {
    if i == 0 then w[0] else Cumulative(w, i - 1) + w[i]
  }

  /** `a * 1.0 / TABLE_SIZE`, the fraction of the table filled before entry `a`. */
  function Threshold(a: nat, tableSize: nat): real
    requires tableSize > 0
  {
    (a as real) / (tableSize as real)
  }

  lemma ThresholdMonotone(a: nat, b: nat, tableSize: nat)
    requires tableSize > 0 && a <= b
    ensures Threshold(a, tableSize) <= Threshold(b, tableSize)
  {
    var t := tableSize as real;
    assert Threshold(b, tableSize) - Threshold(a, tableSize) == (b - a) as real / t;
  }

  lemma ThresholdBelowOne(a: nat, tableSize: nat)
    requires a < tableSize
    ensures Threshold(a, tableSize) < 1.0
  {
    var t := tableSize as real;
    assert Threshold(a, tableSize) * t == a as real;
  }

  lemma {:induction false} CumulativeMonotone(w: seq<real>, i: nat, j: nat)
    requires i <= j < |w|
    requires forall m :: 0 <= m < |w| ==> w[m] >= 0.0
    ensures Cumulative(w, i) <= Cumulative(w, j)
    decreases j - i
  {
    if i < j {
      CumulativeMonotone(w, i, j - 1);
    }
  }

  /** Entries `a ..` of the table produced by the fill loop entered at iteration
      `a` with cursor `i` and running mass `d`. Entry `a` is the cursor; the
      cursor then moves to the next key, adding its weight to the mass, when the
      filled fraction exceeds the mass and a next key exists. When the cursor is
      already on the last key and would advance, the source first reads the
      weight one past the end and then clamps the cursor back (see
      `ReadsPastEnd`); the cursor stays on the last key either way, so the
      entries do not depend on that read. */
  function FillFrom(w: seq<real>, tableSize: nat, a: nat, i: nat, d: real): (r: seq<nat>)
    requires 0 < tableSize && a <= tableSize && i < |w|
    decreases tableSize - a
    ensures |r| == tableSize - a
    ensures a < tableSize ==> r[0] == i
    ensures forall j :: 0 <= j < |r| ==> i <= r[j] < |w|
  {
    if a == tableSize then []
    else if Threshold(a, tableSize) > d && i + 1 < |w| then
      [i] + FillFrom(w, tableSize, a + 1, i + 1, d + w[i + 1])
    else
      [i] + FillFrom(w, tableSize, a + 1, i, d)
  }

  /** Consecutive entries name the same key or the next one: a table lists
      the keys in order, each over a contiguous block of entries. The pair
      `a, b` with `b == a + 1` keeps `t[a]` and `t[a + 1]` from triggering each
      other in an endless chain of instantiations. */
  ghost predicate Contiguous(t: seq<nat>)
  {
    forall a, b :: 0 <= a < b < |t| && b == a + 1 ==> t[a] <= t[b] <= t[a] + 1
  }

  lemma {:induction false} FillFromContiguous(w: seq<real>, tableSize: nat, a: nat, i: nat, d: real)
    requires 0 < tableSize && a <= tableSize && i < |w|
    decreases tableSize - a
    ensures Contiguous(FillFrom(w, tableSize, a, i, d))
  {
    if a < tableSize {
      var step := Threshold(a, tableSize) > d && i + 1 < |w|;
      var i' := if step then i + 1 else i;
      var d' := if step then d + w[i + 1] else d;
      var rest := FillFrom(w, tableSize, a + 1, i', d');
      FillFromContiguous(w, tableSize, a + 1, i', d');
      FillFromUnfold(w, tableSize, a, i, d);
      ConsContiguous(i, rest);
    }
  }

  lemma ConsContiguous(x: nat, t: seq<nat>)
    requires Contiguous(t) && (|t| > 0 ==> x <= t[0] <= x + 1)
    ensures Contiguous([x] + t)
  {
    var r := [x] + t;
    forall a, b | 0 <= a < b < |r| && b == a + 1 ensures r[a] <= r[b] <= r[a] + 1 {
      if a > 0 {
        assert r[a] == t[a - 1] && r[b] == t[b - 1];
      }
    }
  }

  /** One iteration of the loop, as an equation. */
  lemma FillFromUnfold(w: seq<real>, tableSize: nat, a: nat, i: nat, d: real)
    requires 0 < tableSize && a < tableSize && i < |w|
    ensures var step := Threshold(a, tableSize) > d && i + 1 < |w|;
      FillFrom(w, tableSize, a, i, d) ==
        [i] + FillFrom(w, tableSize, a + 1, if step then i + 1 else i, if step then d + w[i + 1] else d)
  {
  }

  /** The fill loop's invariant at iteration `a`: `d` is the mass up to the
      cursor, and the mass before the cursor is below the filled fraction. */
  predicate MassInvariant(w: seq<real>, tableSize: nat, a: nat, i: nat, d: real)
    requires 0 < tableSize && i < |w|
  {
    d == Cumulative(w, i) && (i > 0 ==> Cumulative(w, i - 1) < Threshold(a, tableSize))
  }

  /** Every iteration keeps `MassInvariant`. */
  lemma MassInvariantStep(w: seq<real>, tableSize: nat, a: nat, i: nat, d: real)
    requires 0 < tableSize && a < tableSize && i < |w|
    requires MassInvariant(w, tableSize, a, i, d)
    ensures var step := Threshold(a, tableSize) > d && i + 1 < |w|;
      MassInvariant(w, tableSize, a + 1, if step then i + 1 else i, if step then d + w[i + 1] else d)
  {
    ThresholdMonotone(a, a + 1, tableSize);
  }

  /** Entry `a + j` lies on a key whose preceding mass is below the entry's
      fraction: the cursor never passes a key whose preceding mass already
      covers it. */
  lemma {:induction false} FillFromBelowThreshold(w: seq<real>, tableSize: nat, a: nat, i: nat, d: real, j: nat)
    requires 0 < tableSize && a + j < tableSize && i < |w|
    requires MassInvariant(w, tableSize, a, i, d)
    decreases j
    ensures var r := FillFrom(w, tableSize, a, i, d);
      r[j] > 0 ==> Cumulative(w, r[j] - 1) < Threshold(a + j, tableSize)
  {
    FillFromUnfold(w, tableSize, a, i, d);
    if j > 0 {
      var step := Threshold(a, tableSize) > d && i + 1 < |w|;
      var i' := if step then i + 1 else i;
      var d' := if step then d + w[i + 1] else d;
      MassInvariantStep(w, tableSize, a, i, d);
      FillFromBelowThreshold(w, tableSize, a + 1, i', d', j - 1);
      assert a + 1 + (j - 1) == a + j;
    }
  }

  /** The whole table: the loop entered with `i = 0` and `d1` the first weight. */
  function FillTable(w: seq<real>, tableSize: nat): (table: seq<nat>)
    requires |w| > 0 && tableSize > 0
    ensures |table| == tableSize
    ensures table[0] == 0
    ensures forall a :: 0 <= a < tableSize ==> table[a] < |w|
  {
    FillFrom(w, tableSize, 0, 0, w[0])
  }

  lemma FillTableContiguous(w: seq<real>, tableSize: nat)
    requires |w| > 0 && tableSize > 0
    ensures Contiguous(FillTable(w, tableSize))
  {
    FillFromContiguous(w, tableSize, 0, 0, w[0]);
  }

  /** With non-negative weights no entry lies beyond the first key whose
      cumulative weight reaches the filled fraction: the fill never overshoots
      the cumulative distribution it samples from. */
  lemma FillTableNeverOvershoots(w: seq<real>, tableSize: nat, a: nat, j: nat)
    requires |w| > 0 && tableSize > 0 && a < tableSize && j < |w|
    requires forall m :: 0 <= m < |w| ==> w[m] >= 0.0
    requires Cumulative(w, j) >= Threshold(a, tableSize)
    ensures FillTable(w, tableSize)[a] <= j
  {
    var t := FillTable(w, tableSize);
    if t[a] > j {
      FillFromBelowThreshold(w, tableSize, 0, 0, w[0], a);
      CumulativeMonotone(w, j, t[a] - 1);
    }
  }

  /** Whether the loop, from iteration `a` on, ever reads `winCountVec[i]` with
      `i` equal to the number of keys: it increments the cursor and reads the
      next weight before the clamp `if (i >= vocabSize) i = vocabSize - 1`. */
  predicate ReadsPastEnd(w: seq<real>, tableSize: nat, a: nat, i: nat, d: real)
    requires 0 < tableSize && a <= tableSize && i < |w|
    decreases tableSize - a
  {
    if a == tableSize then false
    else if Threshold(a, tableSize) > d then
      i + 1 == |w| || ReadsPastEnd(w, tableSize, a + 1, i + 1, d + w[i + 1])
    else ReadsPastEnd(w, tableSize, a + 1, i, d)
  }

  /** When the weights add up to at least 1 the out-of-range read never
      happens: on the last key the mass already covers every filled fraction. */
  lemma {:induction false} NoReadPastEndWhenMassReachesOne(w: seq<real>, tableSize: nat, a: nat, i: nat, d: real)
    requires 0 < tableSize && a <= tableSize && i < |w|
    requires d == Cumulative(w, i)
    requires Cumulative(w, |w| - 1) >= 1.0
    ensures !ReadsPastEnd(w, tableSize, a, i, d)
    decreases tableSize - a
  {
    if a < tableSize {
      ThresholdBelowOne(a, tableSize);
      if Threshold(a, tableSize) > d {
        NoReadPastEndWhenMassReachesOne(w, tableSize, a + 1, i + 1, d + w[i + 1]);
      } else {
        NoReadPastEndWhenMassReachesOne(w, tableSize, a + 1, i, d);
      }
    }
  }

  /** Weights below a total of 1 do reach the out-of-range read: one key of
      weight 0 and a table of two entries. */
  lemma ReadsPastEndExample()
    ensures ReadsPastEnd([0.0], 2, 0, 0, 0.0)
  {
    assert Threshold(1, 2) == 0.5;
    assert !ReadsPastEnd([0.0], 2, 2, 0, 0.0);
  }

  /** Writing entry `a` moves one entry from the rest of the fill to the
      prefix already written. */
  lemma FillLoopStep(w: seq<real>, tableSize: nat, done: seq<nat>, a: nat, i: nat, d: real, i': nat, d': real)
    requires 0 < tableSize && a < tableSize && i < |w|
    requires if Threshold(a, tableSize) > d && i + 1 < |w| then i' == i + 1 && d' == d + w[i + 1]
             else i' == i && d' == d
    ensures i' < |w|
    ensures (done + [i]) + FillFrom(w, tableSize, a + 1, i', d') == done + FillFrom(w, tableSize, a, i, d)
  {
    FillFromUnfold(w, tableSize, a, i, d);
    AppendAssoc(done, [i], FillFrom(w, tableSize, a + 1, i', d'));
  }

  lemma FillFromEnd(w: seq<real>, tableSize: nat, done: seq<nat>, i: nat, d: real)
    requires 0 < tableSize && i < |w|
    ensures done + FillFrom(w, tableSize, tableSize, i, d) == done
  {
    assert done + [] == done;
  }

  /** The fill loop of `genTable`. The source overwrites the entries of a
      zero-initialised array in index order; here each entry is appended to
      the ones already written, which gives the same table. */
  method GenTableFill(w: seq<real>, tableSize: nat) returns (table: seq<nat>)
    requires |w| > 0 && tableSize > 0
    ensures table == FillTable(w, tableSize)
  {
    table := [];
    var i: nat := 0;
    var d := w[0];
    var a: nat := 0;
    while a < tableSize
      invariant a <= tableSize && i < |w|
      invariant table + FillFrom(w, tableSize, a, i, d) == FillTable(w, tableSize)
      decreases tableSize - a
    {
      var nextI, nextD := i, d;
      if Threshold(a, tableSize) > d && i + 1 < |w| {
        nextI, nextD := i + 1, d + w[i + 1];
      }
      FillLoopStep(w, tableSize, table, a, i, d, nextI, nextD);
      table, i, d, a := table + [i], nextI, nextD, a + 1;
    }
    FillFromEnd(w, tableSize, table, i, d);
  }

  /** The key list and table that `genTable` leaves in the object. */
  datatype Table = Table(winCountVec: WinCountDic, entries: seq<nat>)

  function Counts(d: WinCountDic): (counts: seq<nat>)
    ensures |counts| == |d|
  {
    seq(|d|, i requires 0 <= i < |d| => d[i].count)
  }

  /** The weight of each key; `weight(count, counts)` stands for the source's
      `pow(count / Z, POWER)` with `Z` computed from all the counts. */
  function Weights(d: WinCountDic, weight: (nat, seq<nat>) -> real): (w: seq<real>)
    ensures |w| == |d|
  {
    seq(|d|, i requires 0 <= i < |d| => weight(d[i].count, Counts(d)))
  }

  lemma TotalZeroIffEmpty(d: WinCountDic)
    requires Positive(d)
    ensures Total(d) == 0 <==> |d| == 0
  {
    if |d| > 0 {
      assert Total(d) >= d[0].count >= 1;
    }
  }

  /** `genTable` as a whole: count the corpus's windows, abort (the source's
      `assert`) when there are none, otherwise keep the key list, with each
      window key's number of occurrences, and fill a table of `tableSize`
      indices into it that starts at the first key and walks the keys in order,
      one step of 0 or 1 per entry. */
  function BuildTable(env: Env, corpus: Option<seq<string>>, size: int,
                      weight: (nat, seq<nat>) -> real, tableSize: nat): (r: Option<Table>)
    requires tableSize > 0
    ensures r.None? <==> corpus.None? || CorpusWindowCount(env, corpus.value, size) == 0
    ensures r.Some? ==>
      && |r.value.winCountVec| > 0
      && Ordered(r.value.winCountVec)
      && Keys(r.value.winCountVec) == (set k | k in CorpusKeys(env, corpus.value, size))
      && (forall k :: Lookup(r.value.winCountVec, k) == multiset(CorpusKeys(env, corpus.value, size))[k])
      && |r.value.entries| == tableSize
      && r.value.entries[0] == 0
      && (forall a :: 0 <= a < tableSize ==> r.value.entries[a] < |r.value.winCountVec|)
      && Contiguous(r.value.entries)
  {
    var dic := InitWinCountDic(env, corpus, size);
    TotalZeroIffEmpty(dic);
    if |dic| == 0 then None
    else
      FillTableContiguous(Weights(dic, weight), tableSize);
      Some(Table(dic, FillTable(Weights(dic, weight), tableSize)))
  }
}
