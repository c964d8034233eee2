/** The numbers of section 3.2.5 and section 3.2.6 of RFC 1951. */
module DeflateTables {
  import opened BitStrings
  import opened Wrappers
  import opened HuffmanCode

  const FIRST_LENGTH := 257
  const END_OF_BLOCK := 256
  const LITERALS := 288
  const DISTANCES := 32
  const MIN_MATCH := 3
  const MAX_MATCH := 258
  const WINDOW := 32768

  /** The code of the numbers from `base` up to `base + Pow2(extra) - 1`. */
  datatype Entry = Entry(code: nat, extra: nat, base: nat)

  const LENGTHS: seq<Entry> := [
    Entry(257, 0, 3), Entry(258, 0, 4), Entry(259, 0, 5), Entry(260, 0, 6), Entry(261, 0, 7),
    Entry(262, 0, 8), Entry(263, 0, 9), Entry(264, 0, 10), Entry(265, 1, 11), Entry(266, 1, 13),
    Entry(267, 1, 15), Entry(268, 1, 17), Entry(269, 2, 19), Entry(270, 2, 23), Entry(271, 2, 27),
    Entry(272, 2, 31), Entry(273, 3, 35), Entry(274, 3, 43), Entry(275, 3, 51), Entry(276, 3, 59),
    Entry(277, 4, 67), Entry(278, 4, 83), Entry(279, 4, 99), Entry(280, 4, 115), Entry(281, 5, 131),
    Entry(282, 5, 163), Entry(283, 5, 195), Entry(284, 5, 227), Entry(285, 0, 258)]

  const DISTANCE_CODES: seq<Entry> := [
    Entry(0, 0, 1), Entry(1, 0, 2), Entry(2, 0, 3), Entry(3, 0, 4), Entry(4, 1, 5),
    Entry(5, 1, 7), Entry(6, 2, 9), Entry(7, 2, 13), Entry(8, 3, 17), Entry(9, 3, 25),
    Entry(10, 4, 33), Entry(11, 4, 49), Entry(12, 5, 65), Entry(13, 5, 97), Entry(14, 6, 129),
    Entry(15, 6, 193), Entry(16, 7, 257), Entry(17, 7, 385), Entry(18, 8, 513), Entry(19, 8, 769),
    Entry(20, 9, 1025), Entry(21, 9, 1537), Entry(22, 10, 2049), Entry(23, 10, 3073),
    Entry(24, 11, 4097), Entry(25, 11, 6145), Entry(26, 12, 8193), Entry(27, 12, 12289),
    Entry(28, 13, 16385), Entry(29, 13, 24577)]

  /** The entries follow one another: codes count up from `first`, and the numbers an entry can
      stand for reach up to where the next one starts. */
  ghost predicate Ladder(table: seq<Entry>, first: nat) {
    forall i | 0 <= i < |table| :: Rung(table, first, i)
  }

  ghost predicate Rung(table: seq<Entry>, first: nat, i: nat)
    requires i < |table|
  {
    && table[i].code == first + i
    && table[i].extra <= 13
    && (i + 1 < |table| ==>
          table[i].base < table[i + 1].base <= table[i].base + Pow2(table[i].extra))
  }

  lemma Powers()
    ensures Pow2(0) == 1 && Pow2(1) == 2 && Pow2(2) == 4 && Pow2(3) == 8 && Pow2(4) == 16
    ensures Pow2(5) == 32 && Pow2(6) == 64 && Pow2(7) == 128 && Pow2(8) == 256 && Pow2(9) == 512
    ensures Pow2(10) == 1024 && Pow2(11) == 2048 && Pow2(12) == 4096 && Pow2(13) == 8192
  {
    assert Pow2(4) == 16;
    assert Pow2(8) == 256;
  }

  lemma LengthRung(i: nat)
    requires i < |LENGTHS|
    ensures Rung(LENGTHS, FIRST_LENGTH, i)
  {
    Powers();
  }

  lemma DistanceRung(i: nat)
    requires i < |DISTANCE_CODES|
    ensures Rung(DISTANCE_CODES, 0, i)
  {
    Powers();
  }

  lemma TablesAreLadders()
    ensures |LENGTHS| == 29 && Ladder(LENGTHS, FIRST_LENGTH)
    ensures LENGTHS[0].base == MIN_MATCH && LENGTHS[28] == Entry(285, 0, MAX_MATCH)
    ensures |DISTANCE_CODES| == 30 && Ladder(DISTANCE_CODES, 0)
    ensures DISTANCE_CODES[0].base == 1 && DISTANCE_CODES[29] == Entry(29, 13, 24577)
  {
    forall i | 0 <= i < |LENGTHS| ensures Rung(LENGTHS, FIRST_LENGTH, i) {
      LengthRung(i);
    }
    forall i | 0 <= i < |DISTANCE_CODES| ensures Rung(DISTANCE_CODES, 0, i) {
      DistanceRung(i);
    }
  }

  /** A number written as a code and the extra bits after it. */
  datatype Written = Written(code: nat, extra: nat, value: nat)

  /** The number is the one the code and its extra bits stand for, and the extra bits hold it. */
  ghost predicate Names(table: seq<Entry>, w: Written, number: nat) {
    exists i | 0 <= i < |table| :: NamesAt(table, w, number, i)
  }

  ghost predicate NamesAt(table: seq<Entry>, w: Written, number: nat, i: nat)
    requires i < |table|
  {
    && table[i].code == w.code && table[i].extra == w.extra
    && number == table[i].base + w.value
    && w.value < Pow2(w.extra)
  }

  /** The code is that of the last entry that starts at the number or below it. */
  ghost predicate Last(table: seq<Entry>, w: Written, number: nat) {
    exists i | 0 <= i < |table| :: LastAt(table, w, number, i)
  }

  ghost predicate LastAt(table: seq<Entry>, w: Written, number: nat, i: nat)
    requires i < |table|
  {
    && table[i].base <= number && (i + 1 < |table| ==> number < table[i + 1].base)
    && w == Written(table[i].code, table[i].extra, number - table[i].base)
  }

  lemma {:induction false} LadderRises(table: seq<Entry>, first: nat, i: nat, j: nat)
    requires Ladder(table, first) && i <= j < |table|
    ensures table[i].base <= table[j].base
    decreases j
  {
    if i < j {
      LadderRises(table, first, i, j - 1);
      assert Rung(table, first, j - 1);
    }
  }

  /** The last entry that starts at the number or below it. */
  method Lookup(table: seq<Entry>, ghost first: nat, number: nat) returns (found: Option<Written>)
    requires Ladder(table, first) && |table| > 0
    ensures found.Some? <==> table[0].base <= number <= 0xFFFF
    ensures var last := table[|table| - 1];
      found.Some? && number < last.base + Pow2(last.extra) ==> Names(table, found.value, number)
    ensures found.Some? ==> Last(table, found.value, number)
  {
    if number > 0xFFFF {
      return None;
    }
    found := None;
    ghost var at := 0;
    for i := 0 to |table|
      invariant forall k | 0 <= k < i && found.None? :: number < table[k].base
      invariant found.Some? ==> at < i && table[0].base <= table[at].base <= number
      invariant found.Some? ==>
        found.value == Written(table[at].code, table[at].extra, number - table[at].base)
      invariant forall k | at < k < i && found.Some? :: number < table[k].base
    {
      assert Rung(table, first, i);
      LadderRises(table, first, 0, i);
      var entry := table[i];
      if entry.base <= number {
        found := Some(Written(entry.code, entry.extra, number - entry.base));
        at := i;
      }
    }
    if found.Some? {
      assert Rung(table, first, at);
      assert LastAt(table, found.value, number, at);
      if number < table[|table| - 1].base + Pow2(table[|table| - 1].extra) {
        assert NamesAt(table, found.value, number, at);
      }
    }
  }

  /** What names a match length in `LENGTHS`. */
  method LengthCode(length: nat) returns (w: Option<Written>)
    ensures w.Some? <==> MIN_MATCH <= length <= 0xFFFF
    ensures w.Some? && length <= MAX_MATCH ==> Names(LENGTHS, w.value, length)
    ensures w.Some? ==> Last(LENGTHS, w.value, length)
  {
    TablesAreLadders();
    Powers();
    w := Lookup(LENGTHS, FIRST_LENGTH, length);
  }

  /** What names a distance in `DISTANCE_CODES`. */
  method DistanceCode(distance: nat) returns (w: Option<Written>)
    ensures w.Some? <==> 1 <= distance <= 0xFFFF
    ensures w.Some? && distance <= WINDOW ==> Names(DISTANCE_CODES, w.value, distance)
    ensures w.Some? ==> Last(DISTANCE_CODES, w.value, distance)
  {
    TablesAreLadders();
    Powers();
    w := Lookup(DISTANCE_CODES, 0, distance);
  }

  /** The entry of a code, if the table has one. */
  function Find(table: seq<Entry>, code: nat): (entry: Option<Entry>) {
    if table == [] then None
    else if table[0].code == code then Some(table[0])
    else Find(table[1..], code)
  }

  lemma {:induction false} FindSound(table: seq<Entry>, code: nat)
    ensures Find(table, code).Some? ==> Find(table, code).value in table
    ensures Find(table, code).Some? ==> Find(table, code).value.code == code
  {
    if table != [] {
      FindSound(table[1..], code);
    }
  }

  /** In a ladder every entry is found by its own code. */
  lemma {:induction false} FindComplete(table: seq<Entry>, first: nat, i: nat)
    requires Ladder(table, first) && i < |table|
    ensures Find(table, table[i].code) == Some(table[i])
  {
    assert Rung(table, first, 0) && Rung(table, first, i);
    if i > 0 {
      var rest, next := table[1..], first + 1;
      forall k | 0 <= k < |rest| ensures Rung(rest, next, k) {
        assert Rung(table, first, k + 1);
      }
      FindComplete(rest, next, i - 1);
    }
  }

  function LengthOf(code: nat): (entry: Option<Entry>) {
    Find(LENGTHS, code)
  }

  function DistanceOf(code: nat): (entry: Option<Entry>) {
    Find(DISTANCE_CODES, code)
  }

  /** Reading a code gives back what it was written for. */
  lemma NamesFound(table: seq<Entry>, first: nat, w: Written, number: nat)
    requires Ladder(table, first) && Names(table, w, number)
    ensures var e := Find(table, w.code);
      e.Some? && e.value.extra == w.extra && e.value.base + w.value == number
    ensures first <= w.code < first + |table| && w.value < Pow2(w.extra) && w.extra <= 13
  {
    var i :| 0 <= i < |table| && NamesAt(table, w, number, i);
    FindComplete(table, first, i);
    assert Rung(table, first, i);
  }

  function Run(length: nat, n: nat): (lengths: seq<nat>)
    ensures |lengths| == n
  {
    seq(n, _ => length)
  }

  /** How long each literal and length symbol is in the codes of section 3.2.6 of RFC 1951. */
  function FixedLiteralLengths(): (lengths: seq<nat>)
    ensures |lengths| == LITERALS
  {
    seq(LITERALS, i =>
      if 144 <= i <= 255 then 9 else if 256 <= i <= 279 then 7 else 8)
  }

  function FixedDistanceLengths(): (lengths: seq<nat>)
    ensures |lengths| == DISTANCES
  {
    Run(5, DISTANCES)
  }

  lemma {:induction false} KraftConcat(x: seq<nat>, y: seq<nat>)
    ensures Kraft(x + y) == Kraft(x) + Kraft(y)
  {
    if y == [] {
      assert x + y == x;
    } else {
      var n := |y| - 1;
      assert (x + y)[..|x + y| - 1] == x + y[..n];
      KraftConcat(x, y[..n]);
    }
  }

  lemma {:induction false} KraftRun(length: nat, n: nat, share: nat)
    requires share == Share(length, MAX_BITS)
    ensures Kraft(Run(length, n)) == n * share
  {
    hide Share;
    if n > 0 {
      var prefix := Run(length, n - 1);
      assert Run(length, n) == prefix + [length];
      assert Run(length, n)[..n - 1] == prefix;
      KraftRun(length, n - 1, share);
      assert n * share == (n - 1) * share + share;
    }
  }

  /** The fixed codes are complete. */
  lemma FixedCodesAreComplete()
    ensures Kraft(FixedLiteralLengths()) == Pow2(MAX_BITS)
    ensures Kraft(FixedDistanceLengths()) == Pow2(MAX_BITS)
  {
    var a, b, c, d := Run(8, 144), Run(9, 112), Run(7, 24), Run(8, 8);
    assert FixedLiteralLengths() == a + b + c + d;
    KraftConcat(a + b + c, d);
    KraftConcat(a + b, c);
    KraftConcat(a, b);
    Powers();
    Pow2Values();
    KraftRun(8, 144, 128);
    KraftRun(9, 112, 64);
    KraftRun(7, 24, 256);
    KraftRun(8, 8, 128);
    KraftRun(5, 32, 1024);
  }

  lemma FixedLengthsCode(symbol: nat)
    ensures symbol < LITERALS ==> Coded(FixedLiteralLengths(), symbol)
    ensures symbol < DISTANCES ==> Coded(FixedDistanceLengths(), symbol)
  {
  }
}
