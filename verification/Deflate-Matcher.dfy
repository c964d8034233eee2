/** Hash chains over a window, which lead to the matches of `MatchSpec`. */
module Matcher {
  import opened Words
  import opened Wrappers
  import opened DeflateTables
  import opened MatchSpec

  /** The word that stands for a place in the table; zero stands for none. */
  function Kept(p: Option<nat>): (n: nat)
    ensures n <= U32_MAX
  {
    if Seen(p).Some? then p.value + 1 else 0
  }

  /** Places of one window have slots of their own. */
  lemma WindowSlots(p: nat, q: nat)
    requires p < q < p + WINDOW
    ensures p % WINDOW != q % WINDOW
  {
  }

  lemma KeptAt(at: nat)
    ensures Kept(Some(at)) == if at + 1 <= U32_MAX then at + 1 else 0
  {
  }

  lemma LastStep(input: seq<Byte>, n: nat, hash: nat)
    ensures LastBefore(input, n + 1, hash)
      == if HashOf(input, n) == Some(hash) then Some(n) else LastBefore(input, n, hash)
  {
  }

  /** Two tables that stand for `LastBefore`: `head` for all hashes at the place reached, `prev` for the
      places of one window. */
  class Scratch {
    const head: array<nat>
    const prev: array<nat>

    ghost predicate Valid()
      reads this
    {
      head.Length == HASH_SIZE && prev.Length == WINDOW && head != prev
    }

    /** The table agrees with a plain scan of the first `n` places. */
    ghost predicate Indexed(input: seq<Byte>, n: nat)
      requires Valid()
      reads this, head, prev
    {
      && (forall h | 0 <= h < HASH_SIZE :: head[h] == Kept(LastBefore(input, n, h)))
      && (forall p | 0 <= p < n && n <= p + WINDOW && HashOf(input, p).Some? :: PrevHolds(input, p))
    }

    ghost predicate PrevHolds(input: seq<Byte>, p: nat)
      requires Valid() && HashOf(input, p).Some?
      reads this, prev
    {
      prev[p % WINDOW] == Kept(LastBefore(input, p, HashOf(input, p).value))
    }

    constructor ()
      ensures Valid() && fresh(head) && fresh(prev)
      ensures forall input :: Indexed(input, 0)
    {
      head := new nat[HASH_SIZE](_ => 0);
      prev := new nat[WINDOW](_ => 0);
    }

    /** Stands for no place at all afterwards. */
    method Clear()
      requires Valid()
      modifies head, prev
      ensures forall input :: Indexed(input, 0)
    {
      forall i | 0 <= i < head.Length {
        head[i] := 0;
      }
      forall i | 0 <= i < prev.Length {
        prev[i] := 0;
      }
    }

    /** An index of the places before `at` becomes one of the places up to `at`. What does not fit 32 bits
        is kept as none. */
    method Insert(input: seq<Byte>, at: nat)
      requires Valid()
      modifies head, prev
      ensures old(Indexed(input, at)) ==> Indexed(input, at + 1)
    {
      hide HashOf, LastBefore, Kept;
      assert Kept(Some(at)) == if at + 1 <= U32_MAX then at + 1 else 0 by {
        KeptAt(at);
      }
      forall h | 0 <= h < HASH_SIZE
        ensures LastBefore(input, at + 1, h)
          == if HashOf(input, at) == Some(h) then Some(at) else LastBefore(input, at, h)
      {
        LastStep(input, at, h);
      }
      var hash := HashOf(input, at);
      if hash.None? {
        if Indexed(input, at) {
          forall p | 0 <= p < at + 1 && at + 1 <= p + WINDOW && HashOf(input, p).Some?
            ensures PrevHolds(input, p)
          {
          }
        }
        return;
      }
      var earlier := head[hash.value];
      prev[at % WINDOW] := earlier;
      head[hash.value] := if at + 1 <= U32_MAX then at + 1 else 0;
      if old(Indexed(input, at)) {
        forall p | 0 <= p < at + 1 && at + 1 <= p + WINDOW && HashOf(input, p).Some?
          ensures PrevHolds(input, p)
        {
          if p < at {
            assert old(PrevHolds(input, p));
            WindowSlots(p, at);
          }
        }
      }
    }

    /** The candidate the table has for `at`. */
    function Head(input: seq<Byte>, at: nat): (p: Option<nat>)
      requires Valid()
      reads this, head
    {
      var hash := HashOf(input, at);
      if hash.None? || head[hash.value] == 0 then None else Some(head[hash.value] - 1)
    }

    /** The candidate the table has behind a place. */
    function Previous(at: nat): (p: Option<nat>)
      requires Valid()
      reads this, prev
    {
      var stored := prev[at % WINDOW];
      if stored == 0 then None else Some(stored - 1)
    }
  }

  /** Over the index of the places before `at`, the table leads to the places a scan finds. */
  lemma {:induction false} HeadLeads(scratch: Scratch, input: seq<Byte>, at: nat)
    requires scratch.Valid() && scratch.Indexed(input, at) && HashOf(input, at).Some?
    ensures scratch.Head(input, at) == Seen(LastBefore(input, at, HashOf(input, at).value))
  {
    hide HashOf, LastBefore;
  }

  lemma {:induction false} PreviousLeads(scratch: Scratch, input: seq<Byte>, at: nat, c: nat)
    requires scratch.Valid() && scratch.Indexed(input, at) && HashOf(input, c).Some?
    requires c < at <= c + WINDOW && c < U32_MAX
    ensures scratch.Previous(c) == LastBefore(input, c, HashOf(input, c).value)
  {
    hide HashOf, LastBefore;
    assert scratch.PrevHolds(input, c);
  }

  /** Computes `Common`. */
  method CountCommon(input: seq<Byte>, earlier: nat, later: nat, limit: nat) returns (length: nat)
    requires earlier <= later <= |input|
    ensures length == Common(input, earlier, later, limit)
  {
    length := 0;
    while length < limit
      invariant length <= limit && later + length <= |input|
      invariant length + Common(input, earlier + length, later + length, limit - length)
        == Common(input, earlier, later, limit)
    {
      if later + length < |input| && input[earlier + length] == input[later + length] {
        length := length + 1;
      } else {
        break;
      }
    }
  }

  /** A run that may be written: the bytes at `at` are the bytes `distance` before them. */
  ghost predicate Sound(input: seq<Byte>, at: nat, found: Found) {
    && MIN_MATCH <= found.length <= MAX_MATCH && at + found.length <= |input|
    && 1 <= found.distance <= WINDOW && found.distance <= at
    && input[at - found.distance..at - found.distance + found.length] == input[at..at + found.length]
  }

  /** Whatever the table holds, what is answered is a
      run that is there; when the table agrees with a plain scan, it is the scan's. */
  method Longest(input: seq<Byte>, at: nat, scratch: Scratch) returns (best: Option<Found>)
    requires at <= |input| && scratch.Valid()
    ensures best.Some? ==> Sound(input, at, best.value)
    ensures scratch.Indexed(input, at) ==> best == BestMatch(input, at)
  {
    hide HashOf, Common, LastBefore, Scan, scratch.Indexed, scratch.Head, scratch.Previous;
    var limit := Limit(input, at);
    if limit < MIN_MATCH {
      return None;
    }
    ghost var hash := HashOf(input, at).value;
    ghost var indexed := scratch.Indexed(input, at);
    var first := scratch.Head(input, at);
    if indexed {
      HeadLeads(scratch, input, at);
    }
    if first.None? {
      ScanDone(input, at, hash, None, CHAIN, None);
      return None;
    }
    var candidate: nat := first.value;
    best := None;
    var step := 0;
    while step < CHAIN
      invariant step <= CHAIN && (best.Some? ==> Sound(input, at, best.value))
      invariant indexed ==> candidate < at && candidate < U32_MAX && HashOf(input, candidate) == Some(hash)
      invariant indexed ==>
        BestMatch(input, at) == Scan(input, at, hash, Some(candidate), CHAIN - step, best)
      decreases CHAIN - step
    {
      if candidate > at {
        return None;
      }
      var distance := at - candidate;
      if distance == 0 || distance > WINDOW {
        break;
      }
      if indexed {
        ScanStep(input, at, hash, candidate, CHAIN - step, best);
        PreviousLeads(scratch, input, at, candidate);
      }
      var length := CountCommon(input, candidate, at, limit);
      CommonIs(input, candidate, at, limit);
      step := step + 1;
      if length >= MIN_MATCH && (best.None? || length > best.value.length) {
        best := Some(Found(length, distance));
        if length >= limit {
          return;
        }
      }
      var earlier := scratch.Previous(candidate);
      if earlier.None? || earlier.value >= candidate {
        if indexed {
          ScanDone(input, at, hash, earlier, CHAIN - step, best);
        }
        return;
      }
      candidate := earlier.value;
    }
    if indexed {
      ScanDone(input, at, hash, Some(candidate), CHAIN - step, best);
    }
  }
}
