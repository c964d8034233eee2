/** How long the compressor's block is, from the steps it takes and nothing of how they are written. */
module DeflateLength {
  import Words
  import opened BitStrings
  import opened DeflateTables
  import opened DeflateFormat
  import opened MatchSpec
  import opened DeflateConstants
  import opened DeflateSpec

  /** The bits of a run's length: seven for its code below 115 bytes and eight from there on, and one
      extra bit more each time the lengths that share a code double. */
  function LengthBits(length: nat): (bits: nat) {
    if length <= 10 then 7
    else if length <= 18 then 8
    else if length <= 34 then 9
    else if length <= 66 then 10
    else if length <= 114 then 11
    else if length <= 130 then 12
    else if length < MAX_MATCH then 13
    else 8
  }

  /** The extra bits of a distance: one more each time it doubles past four. */
  function DistanceExtra(distance: nat): (bits: nat) {
    if distance <= 4 then 0 else 1 + DistanceExtra((distance + 1) / 2)
  }

  /** The bits of one step. */
  function TokenBits(t: Token): (bits: nat) {
    match t
    case Byte(byte) => if byte < 144 then 8 else 9
    case Run(found) => LengthBits(found.length) + (5 + DistanceExtra(found.distance))
  }

  function TokensBits(tokens: seq<Token>): (bits: nat) {
    if tokens == [] then 0 else TokenBits(tokens[0]) + TokensBits(tokens[1..])
  }

  /** The bits of all the steps from a place on. */
  function BitsFrom(input: seq<Words.Byte>, at: nat): (bits: nat)
    requires at <= |input|
    ensures at == |input| ==> bits == 0
  {
    TokensBits(Greedy(input, at))
  }

  /** The bits of the block: three say what it is, and seven end it. */
  function BlockBits(input: seq<Words.Byte>): (bits: nat) {
    3 + BitsFrom(input, 0) + 7
  }

  /** The bytes of the block, the last of them filled up. */
  function DeflatedLength(input: seq<Words.Byte>): (n: nat) {
    (BlockBits(input) + 7) / 8
  }

  // ---------- what is written takes as many ----------

  lemma LengthBitsAre(w: Written, length: nat)
    requires Last(LENGTHS, w, length) && length <= MAX_MATCH
    ensures w.code < LITERALS && FixedLiteralLengths()[w.code] + w.extra == LengthBits(length)
  {
    var i :| 0 <= i < |LENGTHS| && LastAt(LENGTHS, w, length, i);
  }

  lemma {:induction false} DistanceExtraIs(distance: nat, extra: nat)
    requires 2 * Pow2(extra) < distance <= 4 * Pow2(extra)
    ensures DistanceExtra(distance) == extra
  {
    if extra > 0 {
      assert Pow2(extra) == 2 * Pow2(extra - 1);
      DistanceExtraIs((distance + 1) / 2, extra - 1);
    }
  }

  lemma DistanceBitsAre(w: Written, distance: nat)
    requires Last(DISTANCE_CODES, w, distance) && 1 <= distance <= WINDOW
    ensures w.code < DISTANCES && FixedDistanceLengths()[w.code] == 5 && w.extra == DistanceExtra(distance)
  {
    hide Pow2, DistanceExtra, DistanceEntry;
    var i :| 0 <= i < |DISTANCE_CODES| && LastAt(DISTANCE_CODES, w, distance, i);
    DistancesAre(i);
    if i < 29 {
      DistancesAre(i + 1);
    }
    DistanceRange(distance, i);
  }

  lemma SmallExtra(distance: nat)
    requires distance <= 4
    ensures DistanceExtra(distance) == 0
  {
  }

  lemma Doubles(n: nat)
    requires n > 0
    ensures Pow2(n) == 2 * Pow2(n - 1)
  {
  }

  lemma DistanceRange(distance: nat, i: nat)
    requires i < 30 && DistanceEntry(i).base <= distance <= WINDOW
    requires i + 1 < 30 ==> distance < DistanceEntry(i + 1).base
    ensures DistanceEntry(i).code == i && DistanceEntry(i).extra == DistanceExtra(distance)
  {
    hide Pow2, DistanceExtra;
    Powers();
    if i < 4 {
      SmallExtra(distance);
    } else {
      var h := i / 2;
      Doubles(h);
      DistanceExtraIs(distance, h - 1);
    }
  }

  /** A symbol's bits are as many as its step takes. */
  lemma MatchBits(x: Written, y: Written, found: Found)
    requires Last(LENGTHS, x, found.length) && found.length <= MAX_MATCH
    requires Last(DISTANCE_CODES, y, found.distance) && 1 <= found.distance <= WINDOW
    ensures x.code < LITERALS && y.code < DISTANCES
    ensures FixedLiteralLengths()[x.code] + x.extra + FixedDistanceLengths()[y.code] + y.extra
      == TokenBits(Run(found))
  {
    hide Last, LengthBits, DistanceExtra, FixedLiteralLengths, FixedDistanceLengths;
    LengthBitsAre(x, found.length);
    DistanceBitsAre(y, found.distance);
  }

  lemma LiteralBits(byte: Words.Byte)
    ensures FixedLiteralLengths()[byte] == TokenBits(Byte(byte))
  {
  }

  /** The bits of the steps from a place on are those of its step and of the steps after it. */
  lemma StepBits(input: seq<Words.Byte>, at: nat, t: Token, next: nat)
    requires at < next <= |input|
    requires var best := BestMatch(input, at);
      if best.Some? then t == Run(best.value) && next == at + best.value.length
      else t == Byte(input[at]) && next == at + 1
    ensures BitsFrom(input, at) == TokenBits(t) + BitsFrom(input, next)
  {
    hide BestMatch, TokenBits;
    assert Greedy(input, at) == [t] + Greedy(input, next);
    assert ([t] + Greedy(input, next))[1..] == Greedy(input, next);
  }
}
