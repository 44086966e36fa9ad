/** The window-count dictionary of `initWinCountDicFromFile`: every window key of
    the corpus with its number of occurrences. The source keeps it in a
    `std::map<string, IndexType>`; the model keeps the same content as a list of
    entries in the map's key order, which is also the order in which `genTable`
    copies it into `winCountVec`. */
module WinCount {
  import opened Wrappers
  import opened StringOrder
  import opened Windows

  datatype Entry = Entry(key: string, count: nat)

  type WinCountDic = seq<Entry>

  /** Keys strictly increasing, hence distinct: the iteration order of the map. */
  predicate Ordered(d: WinCountDic)
  {
    forall i, j :: 0 <= i < j < |d| ==> LexLess(d[i].key, d[j].key)
  }

  function Keys(d: WinCountDic): set<string>
  {
    set i | 0 <= i < |d| :: d[i].key
  }

  /** The count the map holds for `k`, 0 when `k` is not a key. */
  function Lookup(d: WinCountDic, k: string): nat
  {
    if |d| == 0 then 0 else if d[0].key == k then d[0].count else Lookup(d[1..], k)
  }

  /** The sum of all counts. */
  function Total(d: WinCountDic): nat
  {
    if |d| == 0 then 0 else d[0].count + Total(d[1..])
  }

  predicate Positive(d: WinCountDic)
  {
    forall i :: 0 <= i < |d| ==> d[i].count >= 1
  }

  lemma {:induction false} LookupAbsent(d: WinCountDic, k: string)
    requires k !in Keys(d)
    ensures Lookup(d, k) == 0
  {
    if |d| > 0 {
      assert Keys(d[1..]) <= Keys(d) by {
        forall x | x in Keys(d[1..]) ensures x in Keys(d) {
          var j :| 0 <= j < |d[1..]| && d[1..][j].key == x;
          assert d[j + 1].key == x;
        }
      }
      assert d[0].key in Keys(d);
      LookupAbsent(d[1..], k);
    }
  }

  lemma KeysCons(e: Entry, d: WinCountDic)
    ensures Keys([e] + d) == {e.key} + Keys(d)
  {
    var r := [e] + d;
    assert r[0].key == e.key;
    forall x | x in Keys(r) ensures x in {e.key} + Keys(d) {
      var j :| 0 <= j < |r| && r[j].key == x;
      if j > 0 { assert d[j - 1].key == x; }
    }
    forall x | x in Keys(d) ensures x in Keys(r) {
      var j :| 0 <= j < |d| && d[j].key == x;
      assert r[j + 1].key == x;
    }
  }

  lemma HeadBelowRest(d: WinCountDic)
    requires Ordered(d) && |d| > 0
    ensures forall x :: x in Keys(d[1..]) ==> LexLess(d[0].key, x)
  {
    forall x | x in Keys(d[1..]) ensures LexLess(d[0].key, x) {
      var j :| 0 <= j < |d[1..]| && d[1..][j].key == x;
      assert d[j + 1].key == x;
    }
  }

  lemma ConsOrdered(e: Entry, rest: WinCountDic)
    requires Ordered(rest)
    requires forall x :: x in Keys(rest) ==> LexLess(e.key, x)
    ensures Ordered([e] + rest)
  {
    var r := [e] + rest;
    forall i, j | 0 <= i < j < |r| ensures LexLess(r[i].key, r[j].key) {
      if i == 0 {
        assert rest[j - 1].key in Keys(rest);
      }
    }
  }

  /** A key below the smallest key of an ordered map is not in it. */
  lemma BelowAll(d: WinCountDic, k: string)
    requires Ordered(d) && |d| > 0 && LexLess(k, d[0].key)
    ensures forall x :: x in Keys(d) ==> LexLess(k, x)
    ensures k !in Keys(d)
  {
    HeadBelowRest(d);
    KeysCons(d[0], d[1..]);
    assert [d[0]] + d[1..] == d;
    forall x | x in Keys(d) ensures LexLess(k, x) {
      if x != d[0].key {
        LexTransitive(k, d[0].key, x);
      }
    }
    LexIrreflexive(k);
  }

  /** One step of the counting loop, `winCountDic[key]++` or the insertion of
      `key` with count 1: the map stays ordered and positive and gains `k` as a
      key. `BumpCounts` states what happens to the counts. */
  function Bump(d: WinCountDic, k: string): (r: WinCountDic)
    requires Ordered(d) && Positive(d)
    ensures Ordered(r) && Positive(r)
    ensures Keys(r) == Keys(d) + {k}
  {
    if |d| == 0 then
      KeysCons(Entry(k, 1), d);
      [Entry(k, 1)]
    else if d[0].key == k then
      BumpHere(d, k);
      [Entry(k, d[0].count + 1)] + d[1..]
    else if LexLess(k, d[0].key) then
      BelowAll(d, k);
      KeysCons(Entry(k, 1), d);
      ConsOrdered(Entry(k, 1), d);
      [Entry(k, 1)] + d
    else
      LexTotal(k, d[0].key);
      var rest := Bump(d[1..], k);
      BumpLater(d, k, rest);
      [d[0]] + rest
  }

  lemma BumpHere(d: WinCountDic, k: string)
    requires Ordered(d) && Positive(d) && |d| > 0 && d[0].key == k
    ensures var r := [Entry(k, d[0].count + 1)] + d[1..];
      Ordered(r) && Positive(r) && Keys(r) == Keys(d) + {k}
  {
    KeysCons(d[0], d[1..]);
    KeysCons(Entry(k, d[0].count + 1), d[1..]);
    assert [d[0]] + d[1..] == d;
  }

  lemma BumpLater(d: WinCountDic, k: string, rest: WinCountDic)
    requires Ordered(d) && Positive(d) && |d| > 0 && LexLess(d[0].key, k)
    requires Ordered(rest) && Positive(rest) && Keys(rest) == Keys(d[1..]) + {k}
    ensures var r := [d[0]] + rest;
      Ordered(r) && Positive(r) && Keys(r) == Keys(d) + {k}
  {
    HeadBelowRest(d);
    KeysCons(d[0], d[1..]);
    assert [d[0]] + d[1..] == d;
    KeysCons(d[0], rest);
    ConsOrdered(d[0], rest);
  }

  /** `Bump` raises the count of `k` by one and leaves every other count as it
      was. */
  lemma {:induction false} BumpLookup(d: WinCountDic, k: string, j: string)
    requires Ordered(d) && Positive(d)
    ensures Lookup(Bump(d, k), j) == Lookup(d, j) + (if j == k then 1 else 0)
  {
    if |d| > 0 && d[0].key != k {
      if LexLess(k, d[0].key) {
        BelowAll(d, k);
        LookupAbsent(d, k);
      } else {
        BumpLookup(d[1..], k, j);
      }
    }
  }

  /** `Bump` raises the sum of the counts by one. */
  lemma {:induction false} BumpTotal(d: WinCountDic, k: string)
    requires Ordered(d) && Positive(d)
    ensures Total(Bump(d, k)) == Total(d) + 1
  {
    if |d| > 0 && d[0].key != k && !LexLess(k, d[0].key) {
      BumpTotal(d[1..], k);
    }
  }

  /** `AddKeys(d, keys)` runs the counting loop over `keys` in order, starting from `d`. */
  function AddKeys(d: WinCountDic, keys: seq<string>): (r: WinCountDic)
    requires Ordered(d) && Positive(d)
    ensures Ordered(r) && Positive(r)
  {
    if |keys| == 0 then d else Bump(AddKeys(d, keys[..|keys| - 1]), keys[|keys| - 1])
  }

  lemma {:induction false} AddKeysAppend(d: WinCountDic, a: seq<string>, b: seq<string>)
    requires Ordered(d) && Positive(d)
    ensures AddKeys(AddKeys(d, a), b) == AddKeys(d, a + b)
  {
    if |b| > 0 {
      assert (a + b)[..|a + b| - 1] == a + b[..|b| - 1];
      AddKeysAppend(d, a, b[..|b| - 1]);
    } else {
      assert a + b == a;
    }
  }

  lemma MultisetSnoc(keys: seq<string>, k: string)
    requires |keys| > 0
    ensures multiset(keys)[k] ==
      multiset(keys[..|keys| - 1])[k] + (if keys[|keys| - 1] == k then 1 else 0)
  {
    assert keys == keys[..|keys| - 1] + [keys[|keys| - 1]];
  }

  /** Counting a key sequence from the empty map: every count is the number of
      occurrences of its key, so the keys are exactly the keys seen and the
      counts add up to the number of keys. */
  lemma {:induction false} TallyCounts(keys: seq<string>, k: string)
    ensures Lookup(AddKeys([], keys), k) == multiset(keys)[k]
  {
    if |keys| > 0 {
      var init := keys[..|keys| - 1];
      var last := keys[|keys| - 1];
      TallyCounts(init, k);
      BumpLookup(AddKeys([], init), last, k);
      MultisetSnoc(keys, k);
    }
  }

  lemma {:induction false} TallyTotal(keys: seq<string>)
    ensures Total(AddKeys([], keys)) == |keys|
  {
    if |keys| > 0 {
      TallyTotal(keys[..|keys| - 1]);
      BumpTotal(AddKeys([], keys[..|keys| - 1]), keys[|keys| - 1]);
    }
  }

  lemma {:induction false} TallyKeys(keys: seq<string>)
    ensures Keys(AddKeys([], keys)) == set k | k in keys
  {
    if |keys| > 0 {
      var init := keys[..|keys| - 1];
      var last := keys[|keys| - 1];
      TallyKeys(init);
      assert keys == init + [last];
      assert (set k | k in keys) == (set k | k in init) + {last};
    }
  }

  /** The keys of every window of every line, in file order. */
  function CorpusKeys(env: Env, lines: seq<string>, size: int): seq<string>
  {
    if |lines| == 0 then []
    else CorpusKeys(env, lines[..|lines| - 1], size) + LineKeys(env, lines[|lines| - 1], size)
  }

  /** The number of windows of every line, in file order. */
  function CorpusWindowCount(env: Env, lines: seq<string>, size: int): nat
  {
    if |lines| == 0 then 0
    else
      var last := GenWindowsFromSentence(env, env.trim(lines[|lines| - 1]), size);
      CorpusWindowCount(env, lines[..|lines| - 1], size) + |last|
  }

  lemma {:induction false} CorpusKeysLength(env: Env, lines: seq<string>, size: int)
    ensures |CorpusKeys(env, lines, size)| == CorpusWindowCount(env, lines, size)
  {
    if |lines| > 0 {
      CorpusKeysLength(env, lines[..|lines| - 1], size);
    }
  }

  /** The line loop of `initWinCountDicFromFile`, over lines already read. */
  function CountLines(env: Env, lines: seq<string>, size: int): (d: WinCountDic)
    ensures Ordered(d) && Positive(d)
  {
    if |lines| == 0 then []
    else AddKeys(CountLines(env, lines[..|lines| - 1], size), LineKeys(env, lines[|lines| - 1], size))
  }

  lemma {:induction false} CountLinesIsTally(env: Env, lines: seq<string>, size: int)
    ensures CountLines(env, lines, size) == AddKeys([], CorpusKeys(env, lines, size))
  {
    if |lines| > 0 {
      var init := lines[..|lines| - 1];
      CountLinesIsTally(env, init, size);
      AddKeysAppend([], CorpusKeys(env, init, size), LineKeys(env, lines[|lines| - 1], size));
    }
  }

  /** `initWinCountDicFromFile`. The corpus is `None` when the file cannot be
      opened: the stream then yields no line and the map stays empty. The map
      holds exactly the keys of the corpus's windows, each with its number of
      occurrences, so the counts sum to the number of windows. */
  function InitWinCountDic(env: Env, corpus: Option<seq<string>>, size: int): (d: WinCountDic)
    ensures Ordered(d) && Positive(d)
    ensures corpus.None? ==> d == []
    ensures corpus.Some? ==>
      && Keys(d) == (set k | k in CorpusKeys(env, corpus.value, size))
      && (forall k :: Lookup(d, k) == multiset(CorpusKeys(env, corpus.value, size))[k])
      && Total(d) == CorpusWindowCount(env, corpus.value, size)
  {
    match corpus
    case None => []
    case Some(lines) =>
      CountLinesIsTally(env, lines, size);
      forall k ensures Lookup(CountLines(env, lines, size), k) == multiset(CorpusKeys(env, lines, size))[k] {
        TallyCounts(CorpusKeys(env, lines, size), k);
      }
      TallyTotal(CorpusKeys(env, lines, size));
      TallyKeys(CorpusKeys(env, lines, size));
      CorpusKeysLength(env, lines, size);
      CountLines(env, lines, size)
  }
}
