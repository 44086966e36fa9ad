/** Window generation and window keys (`genWindowsFromSentence`, `genWindowKey`,
    `windows2WordIndexPair`). Tokenising, trimming and the vocabulary lookup live
    in helper headers that are not part of this model; they are the abstract
    functions of an `Env`. */
module Windows {
  import opened Wrappers
  import opened WindowKeys

  /** The collaborators the core calls but does not define: `trim` and `split`
      on " " from the utility header, and `Vocab::index` from the vocabulary. */
  datatype Env = Env(trim: string -> string, split: string -> seq<string>, index: string -> nat)

  /** The windows of a split sentence as the source's loop produces them:
      `words[i .. i+size)` for every `i < |words| - size`. A sentence with fewer
      than `size` words has none; a negative `size`, converted to an unsigned
      count by the comparison, also yields none. */
  function GenWindows<W>(words: seq<W>, size: int): (windows: seq<seq<W>>)
    ensures size < 0 || |words| <= size ==> windows == []
    ensures 0 <= size <= |words| ==> |windows| == |words| - size
    ensures forall i :: 0 <= i < |windows| ==> |windows[i]| == size
  {
    if size < 0 || |words| < size then []
    else seq(|words| - size, i requires 0 <= i < |words| - size => words[i..i + size])
  }

  /** Reference definition: every contiguous run of `size` words, left to right. */
  function Slices<W>(words: seq<W>, size: nat): seq<seq<W>>
    decreases |words|
  {
    if |words| < size || |words| == 0 then (if |words| == size then [words] else [])
    else [words[..size]] + Slices(words[1..], size)
  }

  lemma {:induction false} SlicesShape<W>(words: seq<W>, size: nat)
    requires size <= |words|
    ensures |Slices(words, size)| == |words| - size + 1
    ensures forall i :: 0 <= i <= |words| - size ==> Slices(words, size)[i] == words[i..i + size]
    decreases |words|
  {
    if |words| > 0 && size < |words| {
      SlicesShape(words[1..], size);
      var s := Slices(words, size);
      forall i | 1 <= i <= |words| - size
        ensures s[i] == words[i..i + size]
      {
        assert s[i] == Slices(words[1..], size)[i - 1];
        var shifted, slice := words[1..][i - 1..i - 1 + size], words[i..i + size];
        forall m | 0 <= m < size ensures shifted[m] == slice[m] {
        }
        assert shifted == slice;
      }
    } else if |words| > 0 {
      assert size == |words|;
      assert words[0..0 + size] == words;
    }
  }

  /** The loop bound `i < words.size() - size` drops the last contiguous window:
      the windows produced are exactly all slices but the final one. In
      particular a sentence of exactly `size` words yields no window at all. */
  lemma GenWindowsDropsLastSlice<W>(words: seq<W>, size: nat)
    requires size <= |words|
    ensures var all := Slices(words, size);
      |all| >= 1 && GenWindows(words, size) == all[..|all| - 1]
  {
    SlicesShape(words, size);
  }

  function GenWindowsFromSentence(env: Env, sentence: string, size: int): seq<seq<string>>
  {
    GenWindows(env.split(sentence), size)
  }

  function Indices(env: Env, window: seq<string>): (ids: seq<nat>)
    ensures |ids| == |window|
    ensures forall i :: 0 <= i < |window| ==> ids[i] == env.index(window[i])
  {
    seq(|window|, i requires 0 <= i < |window| => env.index(window[i]))
  }

  /** `genWindowKey`: the window's word indices, each in decimal, joined by
      `-`. */
  function WindowKey(env: Env, window: seq<string>): string
  {
    Encode(Indices(env, window))
  }

  /** The key names exactly the window's index sequence: decoding it gives the
      indices of the window's words in positional order. */
  lemma WindowKeyNamesIndices(env: Env, window: seq<string>)
    ensures Decode(WindowKey(env, window)) == Some(Indices(env, window))
  {
    DecodeEncode(Indices(env, window));
  }

  /** `windows2WordIndexPair`: one key per window, in window order. */
  function WindowsToKeys(env: Env, windows: seq<seq<string>>): (keys: seq<string>)
    ensures |keys| == |windows|
    ensures forall i :: 0 <= i < |windows| ==> keys[i] == WindowKey(env, windows[i])
  {
    if |windows| == 0 then [] else [WindowKey(env, windows[0])] + WindowsToKeys(env, windows[1..])
  }

  /** Every key of `windows2WordIndexPair` decodes to its window's indices. */
  lemma WindowsToKeysDecode(env: Env, windows: seq<seq<string>>)
    ensures var keys := WindowsToKeys(env, windows);
      forall i :: 0 <= i < |windows| ==> Decode(keys[i]) == Some(Indices(env, windows[i]))
  {
    forall i | 0 <= i < |windows| {
      WindowKeyNamesIndices(env, windows[i]);
    }
  }

  /** Two windows get the same key exactly when their words have the same indices. */
  lemma SameKeyIffSameIndices(env: Env, w1: seq<string>, w2: seq<string>)
    ensures WindowKey(env, w1) == WindowKey(env, w2) <==> Indices(env, w1) == Indices(env, w2)
  {
    WindowKeyNamesIndices(env, w1);
    WindowKeyNamesIndices(env, w2);
    if WindowKey(env, w1) == WindowKey(env, w2) {
      EncodeInjective(Indices(env, w1), Indices(env, w2));
    }
  }

  /** The keys of one corpus line, as the counting pass computes them. */
  function LineKeys(env: Env, line: string, size: int): (keys: seq<string>)
    ensures |keys| == |GenWindowsFromSentence(env, env.trim(line), size)|
  {
    WindowsToKeys(env, GenWindowsFromSentence(env, env.trim(line), size))
  }
}
