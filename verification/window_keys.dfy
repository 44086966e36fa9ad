/** Window keys: the vocabulary indices of a window's words, each written in
    decimal and joined with "-" in positional order ("12-1221"). The module
    gives the encoding, a decoder, and the proof that decoding undoes encoding,
    so that two windows share a key exactly when their index sequences agree. */
module WindowKeys {
  import opened Wrappers

  const SEPARATOR: char := '-'

  predicate IsDigit(c: char)
  {
    '0' <= c <= '9'
  }

  predicate AllDigits(s: string)
  {
    forall i :: 0 <= i < |s| ==> IsDigit(s[i])
  }

  predicate NoSeparator(s: string)
  {
    forall i :: 0 <= i < |s| ==> s[i] != SEPARATOR
  }

  function DigitChar(d: nat): (c: char)
    requires d < 10
    ensures IsDigit(c)
  {
    ('0' as int + d) as char
  }

  function DigitValue(c: char): nat
    requires IsDigit(c)
  {
    c as int - '0' as int
  }

  /** What `stringstream << id` writes for an index: its decimal digits, most
      significant first, without leading zeros. */
  function Decimal(n: nat): (s: string)
    ensures |s| > 0 && AllDigits(s)
  {
    if n < 10 then [DigitChar(n)] else Decimal(n / 10) + [DigitChar(n % 10)]
  }

  function ParseDecimal(s: string): nat
    requires AllDigits(s)
  {
    if |s| == 0 then 0 else 10 * ParseDecimal(s[..|s| - 1]) + DigitValue(s[|s| - 1])
  }

  lemma {:induction false} ParseDecimalInverse(n: nat)
    ensures ParseDecimal(Decimal(n)) == n
  {
    if n >= 10 {
      var s := Decimal(n);
      assert s[..|s| - 1] == Decimal(n / 10);
      ParseDecimalInverse(n / 10);
    }
  }

  /** `join(parts, "-")`: the parts with one separator between neighbours. */
  function Join(parts: seq<string>): string
  {
    if |parts| == 0 then ""
    else if |parts| == 1 then parts[0]
    else parts[0] + [SEPARATOR] + Join(parts[1..])
  }

  /** Cuts a string at every separator; the inverse of `Join` on separator-free parts. */
  function Split(s: string): (parts: seq<string>)
    ensures |parts| > 0
  {
    if |s| == 0 then [""]
    else
      var rest := Split(s[1..]);
      if s[0] == SEPARATOR then [""] + rest else [[s[0]] + rest[0]] + rest[1..]
  }

  function Renderings(ids: seq<nat>): (parts: seq<string>)
    ensures |parts| == |ids|
    ensures forall i :: 0 <= i < |ids| ==> parts[i] == Decimal(ids[i])
  {
    if |ids| == 0 then [] else [Decimal(ids[0])] + Renderings(ids[1..])
  }

  /** The key of a window whose words have vocabulary indices `ids`. */
  function Encode(ids: seq<nat>): string
  {
    Join(Renderings(ids))
  }

  function ParseAll(parts: seq<string>): Option<seq<nat>>
  {
    if |parts| == 0 then Some([])
    else if |parts[0]| == 0 || !AllDigits(parts[0]) then None
    else match ParseAll(parts[1..])
      case None => None
      case Some(rest) => Some([ParseDecimal(parts[0])] + rest)
  }

  /** Reads a key back into the index sequence it was made from; `None` when the
      string is not a key (an empty field or a non-digit character). */
  function Decode(key: string): Option<seq<nat>>
  {
    if key == "" then Some([]) else ParseAll(Split(key))
  }

  lemma {:induction false} SplitWithoutSeparator(p: string)
    requires NoSeparator(p)
    ensures Split(p) == [p]
  {
    if |p| > 0 {
      SplitWithoutSeparator(p[1..]);
      assert [p[0]] + p[1..] == p;
    }
  }

  lemma {:induction false} SplitAtFirstSeparator(p: string, t: string)
    requires NoSeparator(p)
    ensures Split(p + [SEPARATOR] + t) == [p] + Split(t)
  {
    var s := p + [SEPARATOR] + t;
    if |p| == 0 {
      assert s[1..] == t;
    } else {
      assert s[1..] == p[1..] + [SEPARATOR] + t;
      SplitAtFirstSeparator(p[1..], t);
      assert [p[0]] + p[1..] == p;
    }
  }

  lemma {:induction false} SplitJoin(parts: seq<string>)
    requires |parts| > 0
    requires forall i :: 0 <= i < |parts| ==> NoSeparator(parts[i])
    ensures Split(Join(parts)) == parts
  {
    if |parts| == 1 {
      SplitWithoutSeparator(parts[0]);
    } else {
      SplitAtFirstSeparator(parts[0], Join(parts[1..]));
      SplitJoin(parts[1..]);
      assert [parts[0]] + parts[1..] == parts;
    }
  }

  lemma {:induction false} ParseAllRenderings(ids: seq<nat>)
    ensures ParseAll(Renderings(ids)) == Some(ids)
  {
    if |ids| > 0 {
      var parts := Renderings(ids);
      assert parts[1..] == Renderings(ids[1..]);
      ParseAllRenderings(ids[1..]);
      ParseDecimalInverse(ids[0]);
      assert [ids[0]] + ids[1..] == ids;
    }
  }

  /** Decoding a key gives back the index sequence it was encoded from. */
  lemma DecodeEncode(ids: seq<nat>)
    ensures Decode(Encode(ids)) == Some(ids)
  {
    var parts := Renderings(ids);
    if |ids| > 0 {
      assert |Join(parts)| > 0 by {
        if |parts| > 1 {
          assert |Join(parts)| >= |parts[0]|;
        }
      }
      forall i | 0 <= i < |parts|
        ensures NoSeparator(parts[i])
      {
        assert AllDigits(parts[i]);
      }
      SplitJoin(parts);
      ParseAllRenderings(ids);
    }
  }

  /** The key encoding is injective: different index sequences never share a key. */
  lemma EncodeInjective(a: seq<nat>, b: seq<nat>)
    requires Encode(a) == Encode(b)
    ensures a == b
  {
    DecodeEncode(a);
    DecodeEncode(b);
  }
}
