/** The tables a decoder and an encoder keep for a code, and how they are built. */
module Huffman {
  import opened BitStrings
  import opened Wrappers
  import opened DeflateErrors
  import opened BitIO
  import opened HuffmanCode
  import opened HuffmanOrder

  const U16_MAX := 0xFFFF

  /** A canonical code turned round: `counts[l]` codes of `l` bits, and all coded symbols in the order
      of their codes. */
  datatype Tree = Tree(counts: seq<nat>, symbols: seq<nat>)

  predicate WellFormed(t: Tree) {
    |t.counts| == MAX_BITS + 1
  }

  /** The tree a vector of lengths stands for, over an alphabet of `n` symbols. */
  function TreeOf(lengths: seq<nat>, n: nat): (t: Tree)
    requires |lengths| <= n
    ensures WellFormed(t)
  {
    TotalBound(lengths);
    var symbols := SymbolsBelow(lengths, MAX_BITS + 1);
    Tree(CountsOf(lengths), symbols + seq(n - |symbols|, _ => 0))
  }

  /** The vectors a decoder takes: no code at all, a complete code, or, for distances, the one
      code of one bit that section 3.2.7 permits. */
  predicate Accepts(lengths: seq<nat>, lone: bool) {
    || Kraft(lengths) == Pow2(MAX_BITS)
    || (forall s | 0 <= s < |lengths| :: !Coded(lengths, s))
    || (lone && exists s | 0 <= s < |lengths| :: IsLone(lengths, s))
  }

  predicate IsLone(lengths: seq<nat>, s: nat)
    requires s < |lengths|
  {
    lengths[s] == 1 && forall r | 0 <= r < |lengths| && r != s :: !Coded(lengths, r)
  }

  /** A number as sixteen bits that saturate hold it. */
  function Capped(n: nat): (r: nat) {
    if n > U16_MAX then U16_MAX else n
  }

  /** Counts the coded symbols by the length of their code. */
  method Counts(lengths: seq<nat>) returns (counts: seq<nat>)
    requires |lengths| <= U16_MAX
    ensures counts == CountsOf(lengths)
  {
    counts := seq(MAX_BITS + 1, _ => 0);
    for i := 0 to |lengths|
      invariant |counts| == MAX_BITS + 1
      invariant forall l | 0 <= l <= MAX_BITS :: counts[l] == Count(lengths[..i], l)
    {
      forall l | 0 <= l <= MAX_BITS ensures Count(lengths[..i + 1], l)
        == Count(lengths[..i], l) + (if l != 0 && lengths[i] == l then 1 else 0)
      {
        CountStep(lengths, i, l);
      }
      var length := lengths[i];
      if length == 0 {
        continue;
      }
      if length <= MAX_BITS {
        counts := counts[length := Capped(counts[length] + 1)];
      }
    }
    assert lengths[..|lengths|] == lengths;
  }

  /** `Pow2(MAX_BITS)` less the Kraft sum, or nothing when the sum is greater. */
  method Unused(counts: seq<nat>) returns (left: Option<nat>)
    requires |counts| == MAX_BITS + 1 && counts[0] == 0
    ensures left.None? <==> Used(counts, MAX_BITS) > Pow2(MAX_BITS)
    ensures left.Some? ==> left.value == Pow2(MAX_BITS) - Used(counts, MAX_BITS)
  {
    var rest: int := 1;
    for l := 1 to MAX_BITS + 1
      invariant rest == Pow2(l - 1) - Used(counts, l - 1) >= 0
    {
      rest := 2 * rest - counts[l];
      assert rest == Pow2(l) - Used(counts, l);
      if rest < 0 {
        OverSubscribedStays(counts, l, MAX_BITS);
        return None;
      }
    }
    return Some(rest);
  }

  lemma {:induction false} TotalZero(lengths: seq<nat>)
    ensures Index(CountsOf(lengths), MAX_BITS + 1) == 0
        <==> forall s | 0 <= s < |lengths| :: !Coded(lengths, s)
  {
    if lengths == [] {
      NothingBelow(MAX_BITS + 1);
    } else {
      var n := |lengths| - 1;
      var prefix := lengths[..n];
      assert lengths == prefix + [lengths[n]];
      TotalAppend(prefix, lengths[n], MAX_BITS + 1);
      TotalZero(prefix);
      assert forall s | 0 <= s < n :: Coded(lengths, s) <==> Coded(prefix, s);
      assert Coded(lengths, n) <==> 1 <= lengths[n] <= MAX_BITS;
    }
  }

  /** One code of one bit in all means one symbol is coded, with one bit. */
  lemma {:induction false} LoneCode(lengths: seq<nat>)
    ensures Index(CountsOf(lengths), MAX_BITS + 1) == 1 && Count(lengths, 1) == 1
        <==> exists s | 0 <= s < |lengths| :: IsLone(lengths, s)
  {
    if lengths == [] {
      NothingBelow(MAX_BITS + 1);
    } else {
      var n := |lengths| - 1;
      var prefix := lengths[..n];
      assert lengths == prefix + [lengths[n]];
      TotalAppend(prefix, lengths[n], MAX_BITS + 1);
      LoneCode(prefix);
      TotalZero(prefix);
      LoneAppend(prefix, lengths[n]);
      IndexMonotone(CountsOf(prefix), 2, MAX_BITS + 1);
    }
  }

  lemma LoneAppend(prefix: seq<nat>, length: nat)
    ensures var lengths := prefix + [length];
      (exists s | 0 <= s < |lengths| :: IsLone(lengths, s)) <==>
        if 1 <= length <= MAX_BITS
        then length == 1 && forall s | 0 <= s < |prefix| :: !Coded(prefix, s)
        else exists s | 0 <= s < |prefix| :: IsLone(prefix, s)
  {
    var lengths := prefix + [length];
    assert forall s | 0 <= s < |prefix| :: Coded(lengths, s) <==> Coded(prefix, s);
    assert Coded(lengths, |prefix|) <==> 1 <= length <= MAX_BITS;
    if 1 <= length <= MAX_BITS {
      assert Coded(lengths, |prefix|);
      assert forall s | 0 <= s < |prefix| :: !IsLone(lengths, s);
      assert IsLone(lengths, |prefix|) <==>
        length == 1 && forall s | 0 <= s < |prefix| :: !Coded(prefix, s);
    } else {
      forall s | 0 <= s < |prefix| ensures IsLone(lengths, s) <==> IsLone(prefix, s) {
        assert forall r | 0 <= r < |lengths| && r != s && r < |prefix| :: Coded(lengths, r) <==> Coded(prefix, r);
      }
      assert !IsLone(lengths, |prefix|) || length == 1;
    }
  }

  /** Builds the tree of a vector of lengths; `lone` allows one code of one bit. */
  method Build(lengths: seq<nat>, n: nat, lone: bool) returns (r: Result<Tree, Error>)
    requires |lengths| <= n <= U16_MAX
    ensures r == if Accepts(lengths, lone) then Ok(TreeOf(lengths, n)) else Err(Input)
  {
    var counts := Counts(lengths);
    var left := Unused(counts);
    KraftIsUsed(lengths);
    TotalZero(lengths);
    LoneCode(lengths);
    if left.None? {
      assert !Accepts(lengths, lone) by {
        TooMany(lengths);
      }
      return Err(Input);
    }
    var total := 0;
    for l := 0 to MAX_BITS + 1
      invariant total == Index(counts, l)
    {
      total := total + counts[l];
    }
    var loneCode := lone && total == 1 && counts[1] == 1;
    if left.value > 0 && total > 0 && !loneCode {
      return Err(Input);
    }
    var symbols := Order(lengths, counts, n);
    return Ok(Tree(counts, symbols));
  }

  /** Lengths that ask for too many codes are not among those accepted. */
  lemma TooMany(lengths: seq<nat>)
    requires Used(CountsOf(lengths), MAX_BITS) > Pow2(MAX_BITS)
    ensures Index(CountsOf(lengths), MAX_BITS + 1) > 0
    ensures Index(CountsOf(lengths), MAX_BITS + 1) != 1
  {
    FewUsed(CountsOf(lengths), MAX_BITS);
  }

  /** Codes that number at most one fit any length. */
  lemma {:induction false} FewUsed(counts: seq<nat>, l: nat)
    requires l < |counts| && counts[0] == 0
    ensures Index(counts, l + 1) == 0 ==> Used(counts, l) == 0
    ensures Index(counts, l + 1) <= 1 ==> Used(counts, l) <= Pow2(l)
    ensures Index(counts, l + 1) == 1 && l > 0 ==> Used(counts, l) <= Pow2(l - 1)
  {
    if l > 0 {
      FewUsed(counts, l - 1);
    }
  }

  /** Where the run of slots of each length starts. */
  method Offsets(counts: seq<nat>) returns (offsets: seq<nat>)
    requires |counts| == MAX_BITS + 1
    ensures |offsets| == MAX_BITS + 1
    ensures forall l | 0 <= l <= MAX_BITS :: offsets[l] == Index(counts, l)
  {
    offsets := seq(MAX_BITS + 1, _ => 0);
    var start := 0;
    for l := 0 to MAX_BITS + 1
      invariant |offsets| == MAX_BITS + 1 && start == Index(counts, l)
      invariant forall k | 0 <= k < l :: offsets[k] == Index(counts, k)
    {
      offsets := offsets[l := start];
      start := start + counts[l];
    }
  }

  /** The symbols in decoding order: every length gets a run of slots, filled from its start. */
  method Order(lengths: seq<nat>, counts: seq<nat>, n: nat) returns (symbols: seq<nat>)
    requires |lengths| <= n && counts == CountsOf(lengths)
    ensures symbols == TreeOf(lengths, n).symbols
  {
    TotalBound(lengths);
    assert lengths[..0] == [];
    var offsets := Offsets(counts);
    symbols := seq(n, _ => 0);
    for i := 0 to |lengths|
      invariant |symbols| == n && OffsetsAt(offsets, lengths, i) && Placed(symbols, lengths, i)
    {
      var length := lengths[i];
      PlaceNext(symbols, lengths, i);
      OffsetsNext(offsets, lengths, i);
      if length == 0 || length > MAX_BITS {
        continue;
      }
      var offset := offsets[length];
      symbols := symbols[offset := i];
      offsets := offsets[length := offset + 1];
    }
    OrderDone(symbols, lengths, n);
  }

  /** The next free slot of each length after the symbols below `i`. */
  ghost predicate OffsetsAt(offsets: seq<nat>, lengths: seq<nat>, i: nat)
    requires i <= |lengths|
  {
    |offsets| == MAX_BITS + 1 && forall l | 1 <= l <= MAX_BITS ::
      offsets[l] == Index(CountsOf(lengths), l) + Count(lengths[..i], l)
  }

  lemma OffsetsNext(offsets: seq<nat>, lengths: seq<nat>, i: nat)
    requires i < |lengths| && OffsetsAt(offsets, lengths, i)
    ensures !Coded(lengths, i) ==> OffsetsAt(offsets, lengths, i + 1)
    ensures Coded(lengths, i) ==>
      OffsetsAt(offsets[lengths[i] := offsets[lengths[i]] + 1], lengths, i + 1)
  {
    var j := i + 1;
    forall l | 1 <= l <= MAX_BITS
      ensures Count(lengths[..j], l) == Count(lengths[..i], l) + (if lengths[i] == l then 1 else 0)
    {
      CountStep(lengths, i, l);
    }
  }

  /** The symbols below `i` stand in the slots of their lengths; the slots past all are zero. */
  ghost predicate Placed(symbols: seq<nat>, lengths: seq<nat>, i: nat)
    requires i <= |lengths|
  {
    && Index(CountsOf(lengths), MAX_BITS + 1) <= |symbols|
    && (forall l, r | 1 <= l <= MAX_BITS && 0 <= r < Count(lengths[..i], l) ::
          SlotHolds(symbols, lengths, i, l, r))
    && (forall k | Index(CountsOf(lengths), MAX_BITS + 1) <= k < |symbols| :: symbols[k] == 0)
  }

  ghost predicate SlotHolds(symbols: seq<nat>, lengths: seq<nat>, i: nat, l: nat, r: nat)
    requires i <= |lengths| && l <= MAX_BITS && r < Count(lengths[..i], l)
  {
    var slot := Index(CountsOf(lengths), l) + r;
    slot < |symbols| && symbols[slot] == SymbolsOf(lengths[..i], l)[r]
  }

  /** The slot a symbol goes to holds no earlier symbol. */
  lemma SlotsDiffer(lengths: seq<nat>, i: nat, l: nat, r: nat)
    requires i < |lengths| && Coded(lengths, i) && 1 <= l <= MAX_BITS && r < Count(lengths[..i], l)
    ensures var counts := CountsOf(lengths);
      Index(counts, l) + r != Index(counts, lengths[i]) + Count(lengths[..i], lengths[i])
  {
    var counts, length := CountsOf(lengths), lengths[i];
    RankBound(lengths, i);
    CountMonotone(lengths, i, |lengths|, l);
    assert lengths[..|lengths|] == lengths;
    if l < length {
      IndexMonotone(counts, l + 1, length);
    } else if length < l {
      IndexMonotone(counts, length + 1, l);
    }
  }

  lemma PlaceNext(symbols: seq<nat>, lengths: seq<nat>, i: nat)
    requires i < |lengths| && Placed(symbols, lengths, i)
    ensures !Coded(lengths, i) ==> Placed(symbols, lengths, i + 1)
    ensures Coded(lengths, i) ==>
      var slot := Index(CountsOf(lengths), lengths[i]) + Count(lengths[..i], lengths[i]);
      slot < |symbols| && Placed(symbols[slot := i], lengths, i + 1)
  {
    var counts, length, j := CountsOf(lengths), lengths[i], i + 1;
    assert lengths[..j][..i] == lengths[..i];
    if Coded(lengths, i) {
      RankBound(lengths, i);
      var slot := Index(counts, length) + Count(lengths[..i], length);
      IndexMonotone(counts, length + 1, MAX_BITS + 1);
      var after := symbols[slot := i];
      forall l, r | 1 <= l <= MAX_BITS && 0 <= r < Count(lengths[..j], l)
        ensures SlotHolds(after, lengths, j, l, r)
      {
        CountStep(lengths, i, l);
        if r < Count(lengths[..i], l) {
          assert SlotHolds(symbols, lengths, i, l, r);
          SlotsDiffer(lengths, i, l, r);
        }
      }
    } else {
      forall l, r | 1 <= l <= MAX_BITS && 0 <= r < Count(lengths[..j], l)
        ensures SlotHolds(symbols, lengths, j, l, r)
      {
        CountStep(lengths, i, l);
        assert SlotHolds(symbols, lengths, i, l, r);
      }
    }
  }

  lemma {:induction false} AllPlaced(symbols: seq<nat>, lengths: seq<nat>, l: nat)
    requires l <= MAX_BITS + 1 && Placed(symbols, lengths, |lengths|)
    ensures Index(CountsOf(lengths), l) <= |symbols|
    ensures symbols[..Index(CountsOf(lengths), l)] == SymbolsBelow(lengths, l)
  {
    hide SymbolsOf;
    var counts := CountsOf(lengths);
    IndexMonotone(counts, l, MAX_BITS + 1);
    if l > 0 {
      AllPlaced(symbols, lengths, l - 1);
      var from, to := Index(counts, l - 1), Index(counts, l);
      var run := symbols[from..to];
      assert lengths[..|lengths|] == lengths;
      forall r | 0 <= r < |run| ensures run[r] == SymbolsOf(lengths, l - 1)[r] {
        assert SlotHolds(symbols, lengths, |lengths|, l - 1, r);
      }
      assert run == SymbolsOf(lengths, l - 1);
      assert symbols[..to] == symbols[..from] + run;
    }
  }

  lemma OrderDone(symbols: seq<nat>, lengths: seq<nat>, n: nat)
    requires |lengths| <= n == |symbols| && Placed(symbols, lengths, |lengths|)
    ensures symbols == TreeOf(lengths, n).symbols
  {
    AllPlaced(symbols, lengths, MAX_BITS + 1);
    var total := Index(CountsOf(lengths), MAX_BITS + 1);
    assert symbols == symbols[..total] + symbols[total..];
    assert symbols[total..] == seq(n - total, _ => 0);
  }

  /** `First(counts, l)` for every length `l`, capped. */
  method FirstCodes(counts: seq<nat>) returns (next: seq<nat>)
    requires |counts| == MAX_BITS + 1
    ensures |next| == MAX_BITS + 1
    ensures forall l | 0 <= l <= MAX_BITS :: next[l] == Capped(First(counts, l))
  {
    next := seq(MAX_BITS + 1, _ => 0);
    var code, before := 0, 0;
    for l := 0 to MAX_BITS + 1
      invariant |next| == MAX_BITS + 1
      invariant l == 0 ==> code == before == 0
      invariant l > 0 ==> code == Capped(First(counts, l - 1)) && before == counts[l - 1]
      invariant forall k | 0 <= k < l :: next[k] == Capped(First(counts, k))
    {
      var sum := Capped(code + before);
      code := Capped(sum + sum);
      next := next[l := code];
      before := counts[l];
    }
  }

  /** Every coded symbol has its canonical code, capped where the lengths ask for too many, and every other zero. */
  method NewCodes(lengths: seq<nat>) returns (codes: seq<nat>)
    requires |lengths| <= U16_MAX
    ensures |codes| == |lengths|
    ensures forall s | 0 <= s < |lengths| ::
              codes[s] == if Coded(lengths, s) then Capped(Code(lengths, s)) else 0
    ensures Kraft(lengths) <= Pow2(MAX_BITS) ==>
      forall s | 0 <= s < |lengths| && Coded(lengths, s) :: codes[s] == Code(lengths, s)
  {
    hide CountsOf, Kraft, Code, First, Used;
    var counts := Counts(lengths);
    var next: seq<nat> := FirstCodes(counts);
    NextStarts(next, lengths);
    codes := seq(|lengths|, _ => 0);
    for i := 0 to |lengths|
      invariant |codes| == |lengths| && NextCodes(next, lengths, i)
      invariant forall s | 0 <= s < |lengths| ::
                  codes[s] == if s < i && Coded(lengths, s) then Capped(Code(lengths, s)) else 0
    {
      var length := lengths[i];
      CodesNext(next, lengths, i);
      if length == 0 || length > MAX_BITS {
        continue;
      }
      codes := codes[i := next[length]];
      next := next[length := Capped(next[length] + 1)];
    }
    if Kraft(lengths) <= Pow2(MAX_BITS) {
      forall s | 0 <= s < |lengths| && Coded(lengths, s) ensures Capped(Code(lengths, s)) == Code(lengths, s) {
        CodeFits(lengths, s);
        Pow2Monotone(lengths[s], MAX_BITS);
        Pow2Values();
      }
    }
  }

  /** The code each length gives out next, after the symbols below `i`. */
  ghost predicate NextCodes(next: seq<nat>, lengths: seq<nat>, i: nat)
    requires i <= |lengths|
  {
    |next| == MAX_BITS + 1 && forall l | 1 <= l <= MAX_BITS ::
      next[l] == Capped(First(CountsOf(lengths), l) + Count(lengths[..i], l))
  }

  lemma NextStarts(next: seq<nat>, lengths: seq<nat>)
    requires |next| == MAX_BITS + 1 && forall l | 0 <= l <= MAX_BITS :: next[l] == Capped(First(CountsOf(lengths), l))
    ensures NextCodes(next, lengths, 0)
  {
    hide First, CountsOf;
  }

  lemma CodesNext(next: seq<nat>, lengths: seq<nat>, i: nat)
    requires i < |lengths| && NextCodes(next, lengths, i)
    ensures !Coded(lengths, i) ==> NextCodes(next, lengths, i + 1)
    ensures Coded(lengths, i) ==> next[lengths[i]] == Capped(Code(lengths, i))
    ensures Coded(lengths, i) ==>
      NextCodes(next[lengths[i] := Capped(next[lengths[i]] + 1)], lengths, i + 1)
  {
    hide First, CountsOf;
    var j := i + 1;
    forall l | 1 <= l <= MAX_BITS
      ensures Count(lengths[..j], l) == Count(lengths[..i], l) + (if lengths[i] == l then 1 else 0)
    {
      CountStep(lengths, i, l);
    }
  }

  /** The symbol at `pos`, when `l - 1` of its bits make `code`: `first` is the first code of `l` bits
      and `index` the number of shorter ones. */
  function DecodeFrom(t: Tree, b: seq<bool>, pos: nat, l: nat, code: nat, first: nat, index: nat)
    : (r: Result<Taken<nat>, Error>)
    requires WellFormed(t) && l <= MAX_BITS + 1
    ensures r.Ok? ==> pos < r.value.end <= |b|
    ensures r.Err? ==> r == Err(Input)
    decreases |b| - pos
  {
    if l > MAX_BITS || pos >= |b| then Err(Input)
    else
      var code := code + BitAt(b, pos);
      var count := t.counts[l];
      if code < first + count then
        if first <= index + code < first + |t.symbols|
        then Ok(Taken(t.symbols[index + code - first], pos + 1))
        else Err(Input)
      else DecodeFrom(t, b, pos + 1, l + 1, 2 * code, 2 * (first + count), index + count)
  }

  function Decode(t: Tree, b: seq<bool>, pos: nat): (r: Result<Taken<nat>, Error>)
    requires WellFormed(t)
    ensures r.Ok? ==> pos < r.value.end <= |b|
    ensures r.Err? ==> r == Err(Input)
  {
    DecodeFrom(t, b, pos, 1, 0, 0, 0)
  }

  /** Reads one symbol from a reader. */
  method DecodeSymbol(t: Tree, reader: Reader) returns (r: Result<nat, Error>)
    requires WellFormed(t) && reader.Valid()
    modifies reader
    ensures var d := Decode(t, BytesBits(reader.input), old(reader.Pos()));
      if d.Ok? then r == Ok(d.value.item) && reader.Valid() && reader.Pos() == d.value.end
      else r == Err(Input)
  {
    hide reader.Holds, BytesBits;
    ghost var b := BytesBits(reader.input);
    ghost var expected := Decode(t, b, reader.Pos());
    var code: nat, first: nat, index: nat := 0, 0, 0;
    for l := 1 to MAX_BITS + 1
      invariant reader.Valid()
      invariant DecodeFrom(t, b, reader.Pos(), l, code, first, index) == expected
    {
      var bit :- reader.Bit();
      code := code + bit;
      var count := t.counts[l];
      if code < first + count {
        if index + code < first || index + code >= first + |t.symbols| {
          return Err(Input);
        }
        return Ok(t.symbols[index + code - first]);
      }
      index := index + count;
      first := 2 * (first + count);
      code := 2 * code;
    }
    return Err(Input);
  }

  /** The number `l` bits stand for when the first is the most significant. */
  function Msb(b: seq<bool>, pos: nat, l: nat): (v: nat)
    requires pos + l <= |b|
  {
    if l == 0 then 0 else 2 * Msb(b, pos, l - 1) + BitAt(b, pos + l - 1)
  }

  lemma {:induction false} MsbBits(b: seq<bool>, pos: nat, l: nat)
    requires pos + l <= |b|
    ensures b[pos..pos + l] == CodeBits(Msb(b, pos, l), l)
  {
    if l > 0 {
      MsbBits(b, pos, l - 1);
      assert b[pos..pos + l] == b[pos..pos + l - 1] + [b[pos + l - 1]];
    }
  }

  /** The beginnings of a written code, as numbers. */
  lemma {:induction false} MsbOfCode(b: seq<bool>, pos: nat, code: nat, length: nat, k: nat)
    requires pos + length <= |b| && b[pos..pos + length] == CodeBits(code, length)
    requires code < Pow2(length) && k <= length
    ensures Msb(b, pos, k) == Shr(code, length - k)
  {
    if k == 0 {
      ShrZero(code, length);
    } else {
      MsbOfCode(b, pos, code, length, k - 1);
      CodeBitsAt(code, length, k - 1);
      assert b[pos + k - 1] == b[pos..pos + length][k - 1];
      ShrStep(code, length - k);
    }
  }

  /** The first `l` bits read stand for more than any code of `l` bits. */
  ghost predicate Past(t: Tree, b: seq<bool>, pos: nat, l: nat)
    requires WellFormed(t) && l <= MAX_BITS
  {
    pos + l <= |b| && Used(t.counts, l) <= Msb(b, pos, l)
  }

  /** The answer of a decoder that has read `l - 1` bits from `pos` on. */
  ghost function DecodeAfter(t: Tree, b: seq<bool>, pos: nat, l: nat): (r: Result<Taken<nat>, Error>)
    requires WellFormed(t) && 1 <= l <= MAX_BITS + 1 && pos + l - 1 <= |b|
    ensures r.Ok? ==> pos + l <= |b| && l <= MAX_BITS
  {
    DecodeFrom(t, b, pos + l - 1, l, 2 * Msb(b, pos, l - 1), First(t.counts, l), Index(t.counts, l))
  }

  /** What a decoder answers when the bits read are a code of `l` bits. */
  ghost function Hit(t: Tree, b: seq<bool>, pos: nat, l: nat): (r: Result<Taken<nat>, Error>)
    requires WellFormed(t) && l <= MAX_BITS && pos + l <= |b|
    requires First(t.counts, l) <= Msb(b, pos, l) < Used(t.counts, l)
  {
    var at := Index(t.counts, l) + (Msb(b, pos, l) - First(t.counts, l));
    if at < |t.symbols| then Ok(Taken(t.symbols[at], pos + l)) else Err(Input)
  }

  lemma DecodeStep(t: Tree, b: seq<bool>, pos: nat, l: nat)
    requires WellFormed(t) && 1 <= l <= MAX_BITS && pos + l <= |b|
    ensures Past(t, b, pos, l) ==> DecodeAfter(t, b, pos, l) == DecodeAfter(t, b, pos, l + 1)
    ensures First(t.counts, l) <= Msb(b, pos, l) < Used(t.counts, l) ==>
      DecodeAfter(t, b, pos, l) == Hit(t, b, pos, l)
  {
  }

  /** Decoding stops at the first length whose codes reach past what has been read. */
  lemma {:induction false} DecodeStops(t: Tree, b: seq<bool>, pos: nat, l: nat, length: nat)
    requires WellFormed(t) && 1 <= l <= length <= MAX_BITS && pos + length <= |b|
    requires forall k | l <= k < length :: Past(t, b, pos, k)
    requires First(t.counts, length) <= Msb(b, pos, length) < Used(t.counts, length)
    ensures DecodeAfter(t, b, pos, l) == Hit(t, b, pos, length)
    decreases length - l
  {
    hide DecodeAfter, Hit, Msb, First;
    DecodeStep(t, b, pos, l);
    if l < length {
      DecodeStops(t, b, pos, l + 1, length);
    }
  }

  /** Where decoding stopped, the code read is one of its length. */
  lemma {:induction false} DecodeStopped(t: Tree, b: seq<bool>, pos: nat, l: nat) returns (length: nat)
    requires WellFormed(t) && 1 <= l <= MAX_BITS + 1 && pos + l - 1 <= |b|
    requires First(t.counts, l) <= 2 * Msb(b, pos, l - 1)
    requires DecodeAfter(t, b, pos, l).Ok?
    ensures l <= length <= MAX_BITS && pos + length <= |b|
    ensures First(t.counts, length) <= Msb(b, pos, length) < Used(t.counts, length)
    ensures DecodeAfter(t, b, pos, l) == Hit(t, b, pos, length)
    decreases MAX_BITS + 1 - l
  {
    hide DecodeAfter, Hit;
    DecodeStep(t, b, pos, l);
    if Msb(b, pos, l) < Used(t.counts, l) {
      length := l;
    } else {
      length := DecodeStopped(t, b, pos, l + 1);
    }
  }

  /** A tree that a decoder may use for a vector of lengths. */
  ghost predicate Reads(t: Tree, lengths: seq<nat>) {
    t.counts == CountsOf(lengths) && SymbolsBelow(lengths, MAX_BITS + 1) <= t.symbols
  }

  lemma TreeReads(lengths: seq<nat>, n: nat)
    requires |lengths| <= n
    ensures Reads(TreeOf(lengths, n), lengths)
  {
  }

  lemma ReadsSymbol(t: Tree, lengths: seq<nat>, l: nat, r: nat)
    requires Reads(t, lengths) && 1 <= l <= MAX_BITS && r < Count(lengths, l)
    ensures Index(t.counts, l) + r < |t.symbols|
    ensures var s := t.symbols[Index(t.counts, l) + r];
      s == SymbolsOf(lengths, l)[r] && Coded(lengths, s) && lengths[s] == l && Rank(lengths, s) == r
  {
    SymbolsBelowAt(lengths, l, MAX_BITS + 1, r);
    SymbolsOfRank(lengths, l, r);
  }

  /** Writing a symbol's code and reading it back gives the symbol and takes its length. */
  lemma DecodeWritten(lengths: seq<nat>, n: nat, s: nat, b: seq<bool>, pos: nat)
    requires |lengths| <= n && Coded(lengths, s) && Kraft(lengths) <= Pow2(MAX_BITS)
    requires pos + lengths[s] <= |b| && b[pos..pos + lengths[s]] == SymbolBits(lengths, s)
    ensures Decode(TreeOf(lengths, n), b, pos) == Ok(Taken(s, pos + lengths[s]))
  {
    TreeReads(lengths, n);
    CodeFits(lengths, s);
    DecodeWith(TreeOf(lengths, n), lengths, s, b, pos);
  }

  lemma DecodeWith(t: Tree, lengths: seq<nat>, s: nat, b: seq<bool>, pos: nat)
    requires WellFormed(t) && Reads(t, lengths)
    requires Coded(lengths, s) && Code(lengths, s) < Pow2(lengths[s])
    requires pos + lengths[s] <= |b| && b[pos..pos + lengths[s]] == SymbolBits(lengths, s)
    ensures Decode(t, b, pos) == Ok(Taken(s, pos + lengths[s]))
  {
    hide Decode, DecodeAfter;
    var code, length := Code(lengths, s), lengths[s];
    forall k | 1 <= k < length ensures Past(t, b, pos, k) {
      MsbOfCode(b, pos, code, length, k);
      BeginningsArePastShorterCodes(t.counts, code, length, length - k);
    }
    MsbOfCode(b, pos, code, length, length);
    RankOfSymbol(lengths, s);
    ReadsSymbol(t, lengths, length, Rank(lengths, s));
    DecodeStops(t, b, pos, 1, length);
    StartsAtZero(t, b, pos);
  }

  lemma StartsAtZero(t: Tree, b: seq<bool>, pos: nat)
    requires WellFormed(t) && pos <= |b| && t.counts[0] == 0
    ensures Decode(t, b, pos) == DecodeAfter(t, b, pos, 1)
    ensures First(t.counts, 1) == 0
  {
    assert First(t.counts, 0) == 0 && Index(t.counts, 0) == 0;
    assert First(t.counts, 1) == 0 && Index(t.counts, 1) == 0;
  }

  /** The symbol taken is one of the code, and the bits taken are what is written for it. */
  ghost predicate WasWritten(lengths: seq<nat>, b: seq<bool>, pos: nat, taken: Taken<nat>) {
    && Coded(lengths, taken.item)
    && pos + lengths[taken.item] == taken.end <= |b|
    && b[pos..taken.end] == SymbolBits(lengths, taken.item)
  }

  /** What a decoder reads is a symbol of the code, written in the bits it took. */
  lemma DecodeReads(lengths: seq<nat>, n: nat, b: seq<bool>, pos: nat)
    requires |lengths| <= n && Decode(TreeOf(lengths, n), b, pos).Ok?
    ensures WasWritten(lengths, b, pos, Decode(TreeOf(lengths, n), b, pos).value)
  {
    TreeReads(lengths, n);
    DecodeReadsWith(TreeOf(lengths, n), lengths, b, pos);
  }

  lemma DecodeReadsWith(t: Tree, lengths: seq<nat>, b: seq<bool>, pos: nat)
    requires WellFormed(t) && Reads(t, lengths) && Decode(t, b, pos).Ok?
    ensures WasWritten(lengths, b, pos, Decode(t, b, pos).value)
  {
    hide Decode, DecodeAfter, Msb, First, Index;
    StartsAtZero(t, b, pos);
    var length := DecodeStopped(t, b, pos, 1);
    var code := Msb(b, pos, length);
    ReadsSymbol(t, lengths, length, code - First(t.counts, length));
    MsbBits(b, pos, length);
  }
}
