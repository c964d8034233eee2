/** The symbols of a code in the order a decoder wants them. */
module HuffmanOrder {
  import opened HuffmanCode

  /** The symbols with a code of `l` bits, in the order of the alphabet. */
  function SymbolsOf(lengths: seq<nat>, l: nat): (symbols: seq<nat>)
    ensures |symbols| == Count(lengths, l)
  {
    if lengths == [] || l == 0 then []
    else SymbolsOf(lengths[..|lengths| - 1], l)
         + (if lengths[|lengths| - 1] == l then [|lengths| - 1] else [])
  }

  /** The symbols with a code shorter than `l` bits, shortest first. */
  function SymbolsBelow(lengths: seq<nat>, l: nat): (symbols: seq<nat>)
    requires l <= MAX_BITS + 1
    ensures |symbols| == Index(CountsOf(lengths), l)
  {
    if l == 0 then [] else SymbolsBelow(lengths, l - 1) + SymbolsOf(lengths, l - 1)
  }

  lemma {:induction false} TotalBound(lengths: seq<nat>)
    ensures Index(CountsOf(lengths), MAX_BITS + 1) <= |lengths|
  {
    if lengths == [] {
      TotalAppend([], 0, MAX_BITS + 1);
      NothingBelow(MAX_BITS + 1);
    } else {
      var prefix := lengths[..|lengths| - 1];
      TotalBound(prefix);
      TotalAppend(prefix, lengths[|lengths| - 1], MAX_BITS + 1);
      assert lengths == prefix + [lengths[|lengths| - 1]];
    }
  }

  lemma {:induction false} NothingBelow(l: nat)
    requires l <= MAX_BITS + 1
    ensures Index(CountsOf([]), l) == 0
  {
    if l > 0 {
      NothingBelow(l - 1);
    }
  }

  lemma {:induction false} TotalAppend(prefix: seq<nat>, length: nat, l: nat)
    requires l <= MAX_BITS + 1
    ensures Index(CountsOf(prefix + [length]), l)
         == Index(CountsOf(prefix), l) + (if 1 <= length < l then 1 else 0)
  {
    assert (prefix + [length])[..|prefix|] == prefix;
    if l > 0 {
      TotalAppend(prefix, length, l - 1);
    }
  }

  /** The symbol of rank `r` among those of a length is where the decoder looks for it. */
  lemma {:induction false} SymbolsOfRank(lengths: seq<nat>, l: nat, r: nat)
    requires 1 <= l && r < Count(lengths, l)
    ensures var s := SymbolsOf(lengths, l)[r];
      s < |lengths| && lengths[s] == l && Rank(lengths, s) == r
  {
    var n := |lengths| - 1;
    var prefix := lengths[..n];
    if r < Count(prefix, l) {
      SymbolsOfRank(prefix, l, r);
      var s := SymbolsOf(prefix, l)[r];
      assert lengths[..s] == prefix[..s];
    }
  }

  lemma {:induction false} RankOfSymbol(lengths: seq<nat>, s: nat)
    requires s < |lengths| && lengths[s] != 0
    ensures Rank(lengths, s) < Count(lengths, lengths[s])
    ensures SymbolsOf(lengths, lengths[s])[Rank(lengths, s)] == s
  {
    var n := |lengths| - 1;
    if s < n {
      RankOfSymbol(lengths[..n], s);
      assert lengths[..n][..s] == lengths[..s];
    }
  }

  lemma {:induction false} SymbolsBelowAt(lengths: seq<nat>, l: nat, m: nat, r: nat)
    requires l < m <= MAX_BITS + 1 && r < Count(lengths, l)
    ensures Index(CountsOf(lengths), l) + r < Index(CountsOf(lengths), m)
    ensures SymbolsBelow(lengths, m)[Index(CountsOf(lengths), l) + r] == SymbolsOf(lengths, l)[r]
    decreases m
  {
    if l < m - 1 {
      SymbolsBelowAt(lengths, l, m - 1, r);
    }
  }
}
