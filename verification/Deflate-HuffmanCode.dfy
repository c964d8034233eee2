/** Canonical Huffman codes, section 3.2.2 of RFC 1951, as a function of the code lengths. */
module HuffmanCode {
  import opened BitStrings
  import opened BitIO

  const MAX_BITS := 15

  /** The number of symbols whose code has `l` bits. A length of zero is no code. */
  function Count(lengths: seq<nat>, l: nat): (c: nat)
    ensures c <= |lengths|
  {
    if lengths == [] || l == 0 then 0
    else Count(lengths[..|lengths| - 1], l) + (if lengths[|lengths| - 1] == l then 1 else 0)
  }

  function CountsOf(lengths: seq<nat>): (counts: seq<nat>)
    ensures |counts| == MAX_BITS + 1
  {
    seq(MAX_BITS + 1, l requires 0 <= l => Count(lengths, l))
  }

  /** The first code of `l` bits: step 2 of section 3.2.2. */
  function First(counts: seq<nat>, l: nat): (f: nat)
    requires l <= |counts|
  {
    if l == 0 then 0 else 2 * (First(counts, l - 1) + counts[l - 1])
  }

  /** The number past the last code of `l` bits. */
  function Used(counts: seq<nat>, l: nat): (u: nat)
    requires l < |counts|
  {
    First(counts, l) + counts[l]
  }

  /** The number of codes shorter than `l` bits. */
  function Index(counts: seq<nat>, l: nat): (i: nat)
    requires l <= |counts|
  {
    if l == 0 then 0 else Index(counts, l - 1) + counts[l - 1]
  }

  predicate Coded(lengths: seq<nat>, symbol: nat) {
    symbol < |lengths| && 1 <= lengths[symbol] <= MAX_BITS
  }

  /** How many earlier symbols have a code of the same length. */
  function Rank(lengths: seq<nat>, symbol: nat): (r: nat)
    requires symbol < |lengths|
  {
    Count(lengths[..symbol], lengths[symbol])
  }

  /** The code of a symbol: step 3 of section 3.2.2. */
  function Code(lengths: seq<nat>, symbol: nat): (c: nat)
    requires Coded(lengths, symbol)
  {
    First(CountsOf(lengths), lengths[symbol]) + Rank(lengths, symbol)
  }

  /** What is written for a symbol. */
  function SymbolBits(lengths: seq<nat>, symbol: nat): (bits: seq<bool>)
    requires Coded(lengths, symbol)
    ensures |bits| == lengths[symbol]
  {
    CodeBits(Code(lengths, symbol), lengths[symbol])
  }

  /** The sum of Kraft's inequality, scaled so that a complete code sums to `Pow2(MAX_BITS)`. */
  function Kraft(lengths: seq<nat>): (k: nat) {
    if lengths == [] then 0
    else Kraft(lengths[..|lengths| - 1]) + Share(lengths[|lengths| - 1], MAX_BITS)
  }

  /** How many codes of `l` bits one code of `length` bits takes up. */
  function Share(length: nat, l: nat): (s: nat) {
    if 1 <= length <= l then Pow2(l - length) else 0
  }

  lemma CountStep(lengths: seq<nat>, i: nat, l: nat)
    requires i < |lengths|
    ensures Count(lengths[..i + 1], l)
         == Count(lengths[..i], l) + (if l != 0 && lengths[i] == l then 1 else 0)
  {
    assert lengths[..i + 1][..i] == lengths[..i];
  }

  lemma {:induction false} CountMonotone(lengths: seq<nat>, i: nat, j: nat, l: nat)
    requires i <= j <= |lengths|
    ensures Count(lengths[..i], l) <= Count(lengths[..j], l)
    decreases j
  {
    if i < j {
      CountMonotone(lengths, i, j - 1, l);
      CountStep(lengths, j - 1, l);
    }
  }

  /** A symbol's rank is below the number of codes of its length. */
  lemma RankBound(lengths: seq<nat>, symbol: nat)
    requires Coded(lengths, symbol)
    ensures Rank(lengths, symbol) < Count(lengths, lengths[symbol])
  {
    CountStep(lengths, symbol, lengths[symbol]);
    CountMonotone(lengths, symbol + 1, |lengths|, lengths[symbol]);
    assert lengths[..|lengths|] == lengths;
  }

  lemma {:induction false} IndexMonotone(counts: seq<nat>, l: nat, m: nat)
    requires l <= m <= |counts|
    ensures Index(counts, l) <= Index(counts, m)
    decreases m
  {
    if l < m {
      IndexMonotone(counts, l, m - 1);
    }
  }

  lemma {:induction false} UsedAppend(prefix: seq<nat>, length: nat, l: nat)
    requires l <= MAX_BITS
    ensures Used(CountsOf(prefix + [length]), l) == Used(CountsOf(prefix), l) + Share(length, l)
    ensures First(CountsOf(prefix + [length]), l) + (if length == l != 0 then 1 else 0)
         == First(CountsOf(prefix), l) + Share(length, l)
  {
    assert (prefix + [length])[..|prefix|] == prefix;
    if l > 0 {
      UsedAppend(prefix, length, l - 1);
    }
  }

  /** The codes in use after the longest length are Kraft's sum. */
  lemma {:induction false} KraftIsUsed(lengths: seq<nat>)
    ensures Kraft(lengths) == Used(CountsOf(lengths), MAX_BITS)
  {
    if lengths == [] {
      NothingUsed(MAX_BITS);
    } else {
      var prefix := lengths[..|lengths| - 1];
      KraftIsUsed(prefix);
      assert lengths == prefix + [lengths[|lengths| - 1]];
      UsedAppend(prefix, lengths[|lengths| - 1], MAX_BITS);
    }
  }

  lemma {:induction false} NothingUsed(l: nat)
    requires l <= MAX_BITS
    ensures Used(CountsOf([]), l) == 0
  {
    if l > 0 {
      NothingUsed(l - 1);
    }
  }

  /** A length that asks for too many codes is never made up for by a longer one. */
  lemma {:induction false} OverSubscribedStays(counts: seq<nat>, l: nat, m: nat)
    requires l <= m < |counts| && Used(counts, l) > Pow2(l)
    ensures Used(counts, m) > Pow2(m)
    decreases m
  {
    if l < m {
      OverSubscribedStays(counts, l, m - 1);
    }
  }

  lemma UsedFits(lengths: seq<nat>, l: nat)
    requires Kraft(lengths) <= Pow2(MAX_BITS) && l <= MAX_BITS
    ensures Used(CountsOf(lengths), l) <= Pow2(l)
  {
    KraftIsUsed(lengths);
    if Used(CountsOf(lengths), l) > Pow2(l) {
      OverSubscribedStays(CountsOf(lengths), l, MAX_BITS);
    }
  }

  /** A code fits its length. */
  lemma CodeFits(lengths: seq<nat>, symbol: nat)
    requires Coded(lengths, symbol) && Kraft(lengths) <= Pow2(MAX_BITS)
    ensures Code(lengths, symbol) < Pow2(lengths[symbol])
  {
    RankBound(lengths, symbol);
    UsedFits(lengths, lengths[symbol]);
  }

  lemma {:induction false} ShrStep(v: nat, k: nat)
    ensures Shr(v, k + 1) == Shr(v, k) / 2
  {
    if k > 0 {
      ShrStep(v / 2, k - 1);
    }
  }

  lemma {:induction false} ShrZero(v: nat, k: nat)
    requires v < Pow2(k)
    ensures Shr(v, k) == 0
  {
    if k > 0 {
      ShrZero(v / 2, k - 1);
    }
  }

  /** Every proper beginning of a code lies past the codes of its own length. */
  lemma {:induction false} BeginningsArePastShorterCodes(counts: seq<nat>, code: nat, length: nat, k: nat)
    requires k <= length < |counts| && First(counts, length) <= code
    ensures First(counts, length - k) <= Shr(code, k)
    ensures k > 0 ==> Used(counts, length - k) <= Shr(code, k)
  {
    if k > 0 {
      BeginningsArePastShorterCodes(counts, code, length, k - 1);
      ShrStep(code, k - 1);
    }
  }
}
