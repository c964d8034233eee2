/** Where a run of bytes has been seen before, by a plain scan of the input. */
module MatchSpec {
  import opened Words
  import opened BitStrings
  import opened Wrappers
  import opened DeflateTables

  const HASH_SIZE := 32768
  const CHAIN := 128

  /** The exclusive or of two numbers. */
  function Xor(a: nat, b: nat): (r: nat) {
    if a == 0 && b == 0 then 0 else (a + b) % 2 + 2 * Xor(a / 2, b / 2)
  }

  function Mix(one: Byte, two: Byte, three: Byte): (h: nat)
    ensures h < HASH_SIZE
  {
    Xor(Xor(Shl(one, 10), Shl(two, 5)), three) % HASH_SIZE
  }

  /** Bit `i` of a number. */
  function Bit(v: nat, i: nat): (b: nat)
    ensures b < 2
  {
    Shr(v, i) % 2
  }

  lemma {:induction false} XorBit(a: nat, b: nat, i: nat)
    ensures Bit(Xor(a, b), i) == (Bit(a, i) + Bit(b, i)) % 2
    decreases i
  {
    var x := Xor(a, b);
    assert x % 2 == (a + b) % 2 && x / 2 == Xor(a / 2, b / 2);
    if i > 0 {
      XorBit(a / 2, b / 2, i - 1);
    }
  }

  lemma {:induction false} ShlBit(v: nat, n: nat, i: nat)
    ensures Bit(Shl(v, n), i) == if i < n then 0 else Bit(v, i - n)
    decreases n
  {
    if n > 0 {
      assert Shl(v, n) % 2 == 0 && Shl(v, n) / 2 == Shl(v, n - 1);
      if i > 0 {
        ShlBit(v, n - 1, i - 1);
      }
    }
  }

  lemma {:induction false} LowBit(v: nat, n: nat, i: nat)
    requires i < n
    ensures Bit(v % Pow2(n), i) == Bit(v, i)
    decreases n
  {
    var p := Pow2(n - 1);
    var w := v % (2 * p);
    Halves(v, p);
    if i > 0 {
      LowBit(v / 2, n - 1, i - 1);
    }
  }

  lemma Halves(v: nat, p: nat)
    requires p > 0
    ensures v % (2 * p) % 2 == v % 2 && v % (2 * p) / 2 == v / 2 % p
  {
    var h, q := v / 2, v / 2 / p;
    assert v == 2 * h + v % 2 && h == q * p + h % p;
    assert v == q * (2 * p) + (2 * (h % p) + v % 2);
    Division(v, 2 * p, q, 2 * (h % p) + v % 2);
  }

  lemma Division(v: nat, d: nat, q: nat, r: nat)
    requires d > 0 && r < d && v == q * d + r
    ensures v % d == r
  {
    var t := v / d;
    assert v == t * d + v % d;
    assert t < q ==> (t + 1) * d <= q * d;
    assert q < t ==> (q + 1) * d <= t * d;
  }

  /** The hash, bit by bit: the second and third byte overlap the one before by three bits. */
  lemma MixBits(one: Byte, two: Byte, three: Byte, i: nat)
    requires i < 15
    ensures Bit(Mix(one, two, three), i)
      == ((if i < 10 then 0 else Bit(one, i - 10)) + (if i < 5 then 0 else Bit(two, i - 5)) + Bit(three, i)) % 2
  {
    hide Bit, Xor, Shl;
    var x := Xor(Shl(one, 10), Shl(two, 5));
    Pow2Values();
    LowBit(Xor(x, three), 15, i);
    XorBit(x, three, i);
    XorBit(Shl(one, 10), Shl(two, 5), i);
    ShlBit(one, 10, i);
    ShlBit(two, 5, i);
  }

  /** A number below `HASH_SIZE` that depends on the bytes at `at`, `at + 1` and `at + 2` only. */
  function HashOf(input: seq<Byte>, at: nat): (h: Option<nat>)
    ensures h.Some? <==> at + 2 < |input|
    ensures h.Some? ==> h.value < HASH_SIZE
  {
    if at + 2 < |input| then Some(Mix(input[at], input[at + 1], input[at + 2])) else None
  }

  /** The length of the longest common run of two places, cut at `limit`. */
  function Common(input: seq<Byte>, earlier: nat, later: nat, limit: nat): (n: nat)
    requires earlier <= later
    ensures n <= limit
    decreases limit
  {
    if limit == 0 || later >= |input| || input[earlier] != input[later] then 0
    else 1 + Common(input, earlier + 1, later + 1, limit - 1)
  }

  lemma {:induction false} CommonIs(input: seq<Byte>, earlier: nat, later: nat, limit: nat)
    requires earlier <= later <= |input|
    ensures var n := Common(input, earlier, later, limit);
      && later + n <= |input|
      && input[earlier..earlier + n] == input[later..later + n]
      && (n < limit && later + n < |input| ==> input[earlier + n] != input[later + n])
    decreases limit
  {
    var n := Common(input, earlier, later, limit);
    if n > 0 {
      CommonIs(input, earlier + 1, later + 1, limit - 1);
      assert input[earlier..earlier + n] == [input[earlier]] + input[earlier + 1..earlier + n];
      assert input[later..later + n] == [input[later]] + input[later + 1..later + n];
    }
  }

  /** Three bytes in common have the hash in common. */
  lemma CommonHash(input: seq<Byte>, earlier: nat, later: nat, limit: nat)
    requires earlier <= later <= |input| && Common(input, earlier, later, limit) >= MIN_MATCH
    ensures HashOf(input, earlier) == HashOf(input, later) && HashOf(input, later).Some?
  {
    hide Mix;
    CommonIs(input, earlier, later, limit);
    var n := Common(input, earlier, later, limit);
    var x, y := input[earlier..earlier + n], input[later..later + n];
    assert x[0] == y[0] && x[1] == y[1] && x[2] == y[2];
  }

  /** The latest place before `n` whose three bytes have the hash. */
  function LastBefore(input: seq<Byte>, n: nat, hash: nat): (p: Option<nat>)
    ensures p.Some? ==> p.value < n && HashOf(input, p.value) == Some(hash)
    ensures p.Some? ==> forall q | p.value < q < n :: HashOf(input, q) != Some(hash)
    ensures p.None? ==> forall q | 0 <= q < n :: HashOf(input, q) != Some(hash)
  {
    if n == 0 then None
    else if HashOf(input, n - 1) == Some(hash) then Some(n - 1)
    else LastBefore(input, n - 1, hash)
  }

  /** A place as the index can keep it: one more than the place has to fit 32 bits. */
  function Seen(p: Option<nat>): (r: Option<nat>) {
    if p.Some? && p.value < U32_MAX then p else None
  }

  /** A run found: how long, and how far back. */
  datatype Found = Found(length: nat, distance: nat)

  function Limit(input: seq<Byte>, at: nat): (n: nat)
    requires at <= |input|
    ensures n <= MAX_MATCH && at + n <= |input| && (n == MAX_MATCH || at + n == |input|)
  {
    if |input| - at < MAX_MATCH then |input| - at else MAX_MATCH
  }

  function Improve(input: seq<Byte>, at: nat, candidate: nat, best: Option<Found>): (r: Option<Found>)
    requires candidate < at <= |input|
  {
    var length := Common(input, candidate, at, Limit(input, at));
    if length >= MIN_MATCH && (best.None? || length > best.value.length)
    then Some(Found(length, at - candidate))
    else best
  }

  /** The scan over the earlier places with the same hash, nearest first, at most `steps` of them
      and none out of the window. */
  function Scan(input: seq<Byte>, at: nat, hash: nat, candidate: Option<nat>, steps: nat, best: Option<Found>)
    : (r: Option<Found>)
    requires at <= |input| && (candidate.Some? ==> candidate.value < at)
    decreases steps
  {
    if steps == 0 || candidate.None? || at - candidate.value > WINDOW then best
    else
      var next := Improve(input, at, candidate.value, best);
      if next != best && next.value.length >= Limit(input, at) then next
      else Scan(input, at, hash, LastBefore(input, candidate.value, hash), steps - 1, next)
  }

  /** The run a compressor uses at `at`. */
  function BestMatch(input: seq<Byte>, at: nat): (r: Option<Found>)
    requires at <= |input|
  {
    var hash := HashOf(input, at);
    if Limit(input, at) < MIN_MATCH || hash.None? then None
    else Scan(input, at, hash.value, Seen(LastBefore(input, at, hash.value)), CHAIN, None)
  }

  lemma ScanStep(input: seq<Byte>, at: nat, hash: nat, c: nat, steps: nat, best: Option<Found>)
    requires c < at <= |input| && at - c <= WINDOW && steps > 0
    ensures var next := Improve(input, at, c, best);
      Scan(input, at, hash, Some(c), steps, best) ==
      if next != best && next.value.length >= Limit(input, at) then next
      else Scan(input, at, hash, LastBefore(input, c, hash), steps - 1, next)
  {
  }

  lemma ScanDone(input: seq<Byte>, at: nat, hash: nat, c: Option<nat>, steps: nat, best: Option<Found>)
    requires at <= |input| && (c.Some? ==> c.value < at)
    requires steps == 0 || c.None? || at - c.value > WINDOW
    ensures Scan(input, at, hash, c, steps, best) == best
  {
  }

  /** How many places from `from` up to `end` have the hash. */
  function HashCount(input: seq<Byte>, from: nat, end: nat, hash: nat): (n: nat)
    decreases end
  {
    if end <= from then 0
    else HashCount(input, from, end - 1, hash) + (if HashOf(input, end - 1) == Some(hash) then 1 else 0)
  }

  /** A place the scan looks at: in the window, with the same hash, and with fewer than `CHAIN`
      such places after it, the last of which can be kept. */
  ghost predicate Visited(input: seq<Byte>, at: nat, q: nat)
    requires at <= |input|
  {
    && q < at <= q + WINDOW
    && HashOf(input, at).Some? && HashOf(input, q) == HashOf(input, at)
    && HashCount(input, q + 1, at, HashOf(input, at).value) < CHAIN
    && Seen(LastBefore(input, at, HashOf(input, at).value)).Some?
  }

  /** What is best so far among the places visited from `low` on. */
  ghost predicate BestFrom(input: seq<Byte>, at: nat, low: nat, best: Option<Found>)
    requires at <= |input|
  {
    && (best.Some? ==>
          && best.value.length >= MIN_MATCH
          && 1 <= best.value.distance && low + best.value.distance <= at
          && Visited(input, at, at - best.value.distance)
          && Common(input, at - best.value.distance, at, Limit(input, at)) == best.value.length)
    && (forall q | low <= q < at && Visited(input, at, q) :: NotBetter(input, at, q, best))
  }

  /** Nothing at `q` is longer than the best, and what is as long is not nearer. */
  ghost predicate NotBetter(input: seq<Byte>, at: nat, q: nat, best: Option<Found>)
    requires q <= at <= |input|
  {
    var n := Common(input, q, at, Limit(input, at));
    if best.None? then n < MIN_MATCH
    else n < best.value.length || (n == best.value.length && q + best.value.distance <= at)
  }

  lemma {:induction false} HashCountSplit(input: seq<Byte>, from: nat, mid: nat, end: nat, hash: nat)
    requires from <= mid <= end
    ensures HashCount(input, from, end, hash)
         == HashCount(input, from, mid, hash) + HashCount(input, mid, end, hash)
    decreases end
  {
    if mid < end {
      HashCountSplit(input, from, mid, end - 1, hash);
    }
  }

  lemma {:induction false} HashCountNone(input: seq<Byte>, from: nat, end: nat, hash: nat)
    requires from <= end && forall q | from <= q < end :: HashOf(input, q) != Some(hash)
    ensures HashCount(input, from, end, hash) == 0
    decreases end
  {
    if from < end {
      HashCountNone(input, from, end - 1, hash);
    }
  }

  /** The next place down the chain has one more place of the hash after it. */
  lemma ChainStep(input: seq<Byte>, at: nat, c: nat, hash: nat)
    requires c < at <= |input| && HashOf(input, c) == Some(hash)
    ensures var p := LastBefore(input, c, hash);
      p.Some? ==> HashCount(input, p.value + 1, at, hash) == HashCount(input, c + 1, at, hash) + 1
  {
    hide HashOf;
    var p := LastBefore(input, c, hash);
    if p.Some? {
      HashCountSplit(input, p.value + 1, c, at, hash);
      HashCountSplit(input, c, c + 1, at, hash);
      HashCountNone(input, p.value + 1, c, hash);
      assert HashCount(input, c, c, hash) == 0;
    }
  }

  lemma {:induction false} HashCountMonotone(input: seq<Byte>, from: nat, mid: nat, end: nat, hash: nat)
    requires from <= mid <= end
    ensures HashCount(input, mid, end, hash) <= HashCount(input, from, end, hash)
  {
    HashCountSplit(input, from, mid, end, hash);
  }

  /** One step of the scan: the places from the candidate on have been compared. */
  lemma ImproveBest(input: seq<Byte>, at: nat, c: nat, low: nat, best: Option<Found>)
    requires c < low <= at <= |input| && Visited(input, at, c)
    requires forall q | c < q < low :: HashOf(input, q) != HashOf(input, at)
    requires BestFrom(input, at, low, best)
    ensures BestFrom(input, at, c, Improve(input, at, c, best))
  {
    hide HashOf, HashCount, Common, Limit;
    var next := Improve(input, at, c, best);
    forall q | c <= q < at && Visited(input, at, q) ensures NotBetter(input, at, q, next) {
      if q >= low {
        assert NotBetter(input, at, q, best);
      }
    }
  }

  /** The scan answers the best of all the places it may visit. */
  lemma {:induction false} ScanIsBest(input: seq<Byte>, at: nat, hash: nat, c: Option<nat>, steps: nat, low: nat,
      best: Option<Found>)
    requires low <= at <= |input| && HashOf(input, at) == Some(hash) && steps <= CHAIN
    requires c == LastBefore(input, low, hash) && (c.Some? ==> Seen(LastBefore(input, at, hash)).Some?)
    requires c.Some? ==> HashCount(input, c.value + 1, at, hash) == CHAIN - steps
    requires BestFrom(input, at, low, best)
    ensures BestFrom(input, at, 0, Scan(input, at, hash, c, steps, best))
    decreases steps
  {
    hide HashOf, HashCount, Common;
    if c.None? {
      assert BestFrom(input, at, 0, best);
    } else if steps == 0 || at - c.value > WINDOW {
      forall q | 0 <= q < at && Visited(input, at, q) ensures NotBetter(input, at, q, best) {
        if q < low {
          HashCountMonotone(input, q + 1, c.value + 1, at, hash);
        }
      }
    } else {
      var p := c.value;
      assert Visited(input, at, p);
      ImproveBest(input, at, p, low, best);
      var next := Improve(input, at, p, best);
      if next != best && next.value.length >= Limit(input, at) {
        forall q | 0 <= q < at && Visited(input, at, q) ensures NotBetter(input, at, q, next) {
          if q >= p {
            assert NotBetter(input, at, q, next);
          }
        }
      } else {
        ChainStep(input, at, p, hash);
        ScanIsBest(input, at, hash, LastBefore(input, p, hash), steps - 1, p, next);
      }
    }
  }

  /** The compressor takes the longest run among the places visited, and of those as long the
      nearest; it takes none only where no place visited has three bytes in common. */
  lemma BestMatchIsBest(input: seq<Byte>, at: nat)
    requires at <= |input|
    ensures BestFrom(input, at, 0, BestMatch(input, at))
  {
    hide HashOf, HashCount, Common;
    var hash := HashOf(input, at);
    if Limit(input, at) < MIN_MATCH || hash.None? {
      assert BestMatch(input, at) == None;
    } else {
      var c := LastBefore(input, at, hash.value);
      if c.None? || Seen(c).Some? {
        if c.Some? {
          HashCountNone(input, c.value + 1, at, hash.value);
        }
        ScanIsBest(input, at, hash.value, c, CHAIN, at, None);
      }
    }
  }

  /** When no more than `CHAIN` places in the window share the hash, and the last of them can be kept, no run
      in the window is longer than the one taken, and none as long is nearer. */
  lemma BestInWindow(input: seq<Byte>, at: nat, q: nat)
    requires q < at <= |input| && at <= q + WINDOW
    requires HashOf(input, at).Some? ==>
      && HashCount(input, if at <= WINDOW then 0 else at - WINDOW, at, HashOf(input, at).value) <= CHAIN
      && Seen(LastBefore(input, at, HashOf(input, at).value)) == LastBefore(input, at, HashOf(input, at).value)
    ensures NotBetter(input, at, q, BestMatch(input, at))
  {
    hide HashOf, BestMatch, Common, Limit;
    BestMatchIsBest(input, at);
    if Common(input, q, at, Limit(input, at)) >= MIN_MATCH {
      CommonHash(input, q, at, Limit(input, at));
      var hash := HashOf(input, at).value;
      var low := if at <= WINDOW then 0 else at - WINDOW;
      HashCountSplit(input, low, q, at, hash);
      HashCountSplit(input, q, q + 1, at, hash);
      assert HashCount(input, q, q + 1, hash) == HashCount(input, q, q, hash) + 1;
      assert Visited(input, at, q);
    }
  }

  /** A window past the last place that can be kept, no run is taken any more. */
  lemma NothingIsSeen(input: seq<Byte>, at: nat)
    requires at <= |input| && at >= U32_MAX + WINDOW
    ensures BestMatch(input, at) == None
  {
    hide HashOf, LastBefore;
  }

  // ---------- places past 32 bits ----------

  /** No place in the window has a longer run, or one as long and nearer. */
  ghost predicate NoneBeats(input: seq<Byte>, at: nat, best: Option<Found>)
    requires at <= |input|
  {
    forall q: nat | q < at <= q + WINDOW :: NotBetter(input, at, q, best)
  }

  /** The last place with the same hash, if there is any, can be kept. */
  ghost predicate LastIsSeen(input: seq<Byte>, at: nat) {
    HashOf(input, at).Some? ==>
      var last := LastBefore(input, at, HashOf(input, at).value);
      Seen(last) == last
  }

  /** When no more than `CHAIN` places in the window share the hash, nothing in it beats the run taken exactly when
      the last of them can be kept, or there is no run in the window to be lost. */
  lemma BestExactly(input: seq<Byte>, at: nat)
    requires at <= |input|
    requires HashOf(input, at).Some? ==>
      HashCount(input, if at <= WINDOW then 0 else at - WINDOW, at, HashOf(input, at).value) <= CHAIN
    ensures NoneBeats(input, at, BestMatch(input, at)) <==> LastIsSeen(input, at) || NoneBeats(input, at, None)
  {
    hide HashOf, HashCount, Common, Scan;
    if LastIsSeen(input, at) {
      forall q: nat | q < at <= q + WINDOW ensures NotBetter(input, at, q, BestMatch(input, at)) {
        BestInWindow(input, at, q);
      }
    } else {
      UnseenIsNone(input, at);
    }
  }

  lemma UnseenIsNone(input: seq<Byte>, at: nat)
    requires at <= |input| && !LastIsSeen(input, at)
    ensures BestMatch(input, at) == None
  {
    hide HashOf;
  }

  /** The second place that cannot be kept has the run of the first before it, and takes none. */
  lemma MatchIsMissed(input: seq<Byte>)
    requires input == seq(U32_MAX + 4, _ => 0)
    ensures BestMatch(input, U32_MAX + 1) == None && Common(input, U32_MAX, U32_MAX + 1, 3) == 3
    ensures !NoneBeats(input, U32_MAX + 1, BestMatch(input, U32_MAX + 1))
  {
    hide Mix, Scan;
    var at := U32_MAX + 1;
    assert HashOf(input, U32_MAX) == HashOf(input, at);
    UnseenIsNone(input, at);
    assert Common(input, U32_MAX + 3, at + 3, 0) == 0;
    assert Common(input, U32_MAX + 2, at + 2, 1) == 1;
    assert Common(input, U32_MAX + 1, at + 1, 2) == 2;
    assert Limit(input, at) == 3;
    assert !NotBetter(input, at, U32_MAX, None);
  }
}
