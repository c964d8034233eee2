/** The tables of RFC 1951 in closed form: what its sections say in words, of the numbers written out elsewhere. */
module DeflateConstants {
  import opened Words
  import opened BitStrings
  import opened HuffmanCode
  import opened DeflateTables
  import opened InflateSpec

  /** Section 3.2.7: 16, 17, 18 and 0, and then the lengths outward from 8: one more, one less. */
  lemma OrderIs(i: nat)
    requires i < CODE_LENGTHS
    ensures CODE_LENGTHS == 19
    ensures Place(i) == if i < 3 then 16 + i else if i == 3 then 0
                        else if i % 2 == 0 then 8 + (i - 4) / 2 else 7 - (i - 5) / 2
  {
  }

  /** Section 3.2.5: from 265 on four codes share a number of extra bits, and 285 is the greatest length by itself. */
  function LengthEntry(code: nat): (e: Entry)
    requires 257 <= code <= 285
  {
    if code < 265 then Entry(code, 0, code - 254)
    else if code == 285 then Entry(285, 0, 258)
    else
      var extra := (code - 261) / 4;
      Entry(code, extra, 3 + (4 + (code - 265) % 4) * Pow2(extra))
  }

  /** From 4 on two codes share a number of extra bits. */
  function DistanceEntry(code: nat): (e: Entry)
    requires code < 30
  {
    if code < 4 then Entry(code, 0, code + 1)
    else
      var extra := code / 2 - 1;
      Entry(code, extra, if code % 2 == 0 then 1 + 2 * Pow2(extra) else 1 + 3 * Pow2(extra))
  }

  /** What can be said at all: lengths from 3 to 258, and distances up to the 32768 bytes of the window. */
  lemma TablesReach()
    ensures LENGTHS[0].base == MIN_MATCH == 3 && LENGTHS[28].base == MAX_MATCH == 258
    ensures DISTANCE_CODES[29].base + Pow2(DISTANCE_CODES[29].extra) - 1 == WINDOW == 0x8000
  {
    Powers();
  }

  lemma LengthsAre(i: nat)
    requires i < 29
    ensures |LENGTHS| == 29 && LENGTHS[i] == LengthEntry(257 + i)
  {
    hide Pow2;
    Powers();
  }

  lemma DistancesAre(i: nat)
    requires i < 30
    ensures |DISTANCE_CODES| == 30 && DISTANCE_CODES[i] == DistanceEntry(i)
  {
    hide *;
    var h := i / 2;
    if i == 2 * h {
      EvenDistances(h);
    } else {
      assert i == 2 * h + 1;
      OddDistances(h);
    }
  }

  lemma EvenDistances(h: nat)
    requires h < 15
    ensures |DISTANCE_CODES| == 30
    ensures DISTANCE_CODES[2 * h] == DistanceEntry(2 * h)
  {
    hide Pow2;
    Powers();
    assert DISTANCE_CODES[2 * h].extra == if h < 2 then 0 else h - 1;
    assert DISTANCE_CODES[2 * h].base == if h < 2 then 2 * h + 1 else 1 + 2 * Pow2(h - 1);
  }

  lemma OddDistances(h: nat)
    requires h < 15
    ensures |DISTANCE_CODES| == 30
    ensures DISTANCE_CODES[2 * h + 1] == DistanceEntry(2 * h + 1)
  {
    hide Pow2;
    Powers();
    assert DISTANCE_CODES[2 * h + 1].extra == if h < 2 then 0 else h - 1;
    assert DISTANCE_CODES[2 * h + 1].base == if h < 2 then 2 * h + 1 + 1 else 1 + 3 * Pow2(h - 1);
  }

  // ---------- the fixed codes of section 3.2.6 ----------

  /** How many of the first `i` symbols have a code of `l` bits. */
  function FixedCount(i: nat, l: nat): (n: nat) {
    if l == 7 then Between(i, 256, 280)
    else if l == 8 then Between(i, 0, 144) + Between(i, 280, 288)
    else if l == 9 then Between(i, 144, 256)
    else 0
  }

  /** How many of the numbers below `i` are from `from` up to `end`. */
  function Between(i: nat, from: nat, end: nat): (n: nat) {
    if i <= from then 0 else if i < end then i - from else if from <= end then end - from else 0
  }

  lemma {:induction false} FixedCounts(i: nat, l: nat)
    requires i <= LITERALS
    ensures Count(FixedLiteralLengths()[..i], l) == FixedCount(i, l)
  {
    hide Count;
    if i > 0 {
      FixedCounts(i - 1, l);
      CountStep(FixedLiteralLengths(), i - 1, l);
    } else {
      NoneCounted(FixedLiteralLengths()[..0], l);
    }
  }

  lemma NoneCounted(lengths: seq<nat>, l: nat)
    requires lengths == []
    ensures Count(lengths, l) == 0
  {
  }

  lemma FixedFirsts()
    ensures var counts := CountsOf(FixedLiteralLengths());
      First(counts, 7) == 0 && First(counts, 8) == 0x30 && First(counts, 9) == 0x190
  {
    hide Count, FixedLiteralLengths;
    var lengths := FixedLiteralLengths();
    var counts := CountsOf(lengths);
    assert lengths[..LITERALS] == lengths;
    forall l | 0 <= l <= 9 ensures counts[l] == FixedCount(LITERALS, l) {
      FixedCounts(LITERALS, l);
    }
    assert First(counts, 0) == 0;
    assert First(counts, 1) == 0 && First(counts, 2) == 0 && First(counts, 3) == 0;
    assert First(counts, 4) == 0 && First(counts, 5) == 0 && First(counts, 6) == 0;
    assert First(counts, 7) == 0;
    assert First(counts, 8) == 0x30;
  }

  /** The codes of the table of section 3.2.6: their lengths and where each range starts. */
  lemma FixedCodesAre(s: nat)
    requires s < LITERALS
    ensures Coded(FixedLiteralLengths(), s)
    ensures var length, code := FixedLiteralLengths()[s], Code(FixedLiteralLengths(), s);
      if s < 144 then length == 8 && code == 0x30 + s
      else if s < 256 then length == 9 && code == 0x190 + (s - 144)
      else if s < 280 then length == 7 && code == s - 256
      else length == 8 && code == 0xC0 + (s - 280)
  {
    hide Count, First;
    FixedFirsts();
    FixedCounts(s, FixedLiteralLengths()[s]);
  }

  lemma {:induction false} FivesCounted(i: nat, l: nat)
    requires i <= DISTANCES
    ensures Count(FixedDistanceLengths()[..i], l) == if l == 5 then i else 0
  {
    hide Count;
    if i > 0 {
      FivesCounted(i - 1, l);
      CountStep(FixedDistanceLengths(), i - 1, l);
    } else {
      NoneCounted(FixedDistanceLengths()[..0], l);
    }
  }

  /** Distance codes are five bits that are the code itself. */
  lemma FixedDistancesAre(s: nat)
    requires s < DISTANCES
    ensures Coded(FixedDistanceLengths(), s)
    ensures FixedDistanceLengths()[s] == 5 && Code(FixedDistanceLengths(), s) == s
  {
    hide Count;
    var lengths := FixedDistanceLengths();
    var counts := CountsOf(lengths);
    assert lengths[..DISTANCES] == lengths;
    forall l | 0 <= l <= 5 ensures counts[l] == if l == 5 then 32 else 0 {
      FivesCounted(DISTANCES, l);
    }
    FivesCounted(s, 5);
    assert First(counts, 0) == 0 && First(counts, 1) == 0 && First(counts, 2) == 0;
    assert First(counts, 3) == 0 && First(counts, 4) == 0 && First(counts, 5) == 0;
  }

  /** Section 3.2.2: codes of one length follow one another in the order of their symbols. */
  lemma CodesInOrder(lengths: seq<nat>, s: nat, t: nat)
    requires Coded(lengths, s) && Coded(lengths, t) && s < t && lengths[s] == lengths[t]
    requires forall m | s < m < t :: lengths[m] != lengths[s]
    ensures Code(lengths, t) == Code(lengths, s) + 1
  {
    hide Count, First;
    CountStep(lengths, s, lengths[s]);
    NoneBetween(lengths, s + 1, t, lengths[s]);
  }

  lemma {:induction false} NoneBetween(lengths: seq<nat>, i: nat, j: nat, l: nat)
    requires i <= j <= |lengths| && forall m | i <= m < j :: lengths[m] != l
    ensures Count(lengths[..j], l) == Count(lengths[..i], l)
    decreases j
  {
    hide Count;
    if i < j {
      NoneBetween(lengths, i, j - 1, l);
      CountStep(lengths, j - 1, l);
    }
  }

  // ---------- copies ----------

  /** Every byte copied is the byte so far before it in what results. */
  lemma {:induction false} CopyBackAt(out: seq<Byte>, distance: nat, length: nat, i: nat)
    requires 1 <= distance <= |out| && i < length
    ensures var r := CopyBack(out, distance, length);
      r[..|out|] == out && r[|out| + i] == r[|out| + i - distance]
    decreases length
  {
    var next := out + [out[|out| - distance]];
    var r := CopyBack(out, distance, length);
    assert r == CopyBack(next, distance, length - 1);
    if i == 0 {
      assert next[|out|] == r[|out|] && next[|out| - distance] == r[|out| - distance];
    } else {
      CopyBackAt(next, distance, length - 1, i - 1);
    }
  }
}
