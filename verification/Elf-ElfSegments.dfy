/** Segments of an ELF64 executable: the memory they cover and what is asked of one. */
module ElfSegments {

  import opened Wrappers
  import opened Words

  type U64 = n: nat | n <= 0xFFFF_FFFF_FFFF_FFFF

  datatype Segment = Segment(
    fileOffset: U64, fileSize: U64, vaddr: U64, memSize: U64, align: U64, write: bool, execute: bool)

  datatype Constraints = Constraints(lowest: U64, highest: U64)

  datatype Error =
    | TooShort
    | BadMagic
    | NotClass64
    | NotLittleEndian
    | NotExecutable
    | WrongMachine
    | HeaderSize
    | ProgramHeaderSize
    | ProgramHeaderTable
    | NoSegments
    | TooManySegments
    | SegmentFileRange(index: nat)
    | SegmentMemorySize(index: nat)
    | SegmentAlignment(index: nat)
    | SegmentOutsideBounds(index: nat)
    | SegmentsOverlap
    | WritableAndExecutable(index: nat)
    | EntryNotExecutable
    | Overflow

  // ----- Memory -----

  /** The segment holds the byte at an address. */
  predicate Covers(s: Segment, address: nat) {
    s.vaddr <= address < s.vaddr + s.memSize
  }

  predicate Contains(s: Segment, address: U64) {
    s.memSize != 0 && s.vaddr + (s.memSize - 1) <= U64_MAX && s.vaddr <= address <= s.vaddr + (s.memSize - 1)
  }

  predicate Overlaps(s: Segment, other: Segment) {
    && s.memSize != 0 && other.memSize != 0
    && if s.vaddr <= other.vaddr then other.vaddr - s.vaddr < s.memSize else s.vaddr - other.vaddr < other.memSize
  }

  /** Segments overlap exactly when they share a byte. */
  lemma OverlapsIsShared(s: Segment, other: Segment)
    ensures Overlaps(s, other) <==> exists address :: Covers(s, address) && Covers(other, address)
  {
    if Overlaps(s, other) {
      var address := if s.vaddr <= other.vaddr then other.vaddr else s.vaddr;
      assert Covers(s, address) && Covers(other, address);
    }
  }

  predicate Allows(c: Constraints, start: U64, length: U64) {
    && c.lowest <= start <= c.highest
    && (length != 0 ==> start + (length - 1) <= U64_MAX && start + (length - 1) <= c.highest)
  }

  /** A segment is allowed exactly when it starts in the bounds and every byte it holds lies in them. */
  lemma AllowsIsInside(c: Constraints, s: Segment)
    ensures Allows(c, s.vaddr, s.memSize)
            <==> c.lowest <= s.vaddr <= c.highest
                 && forall address: nat :: Covers(s, address) ==> c.lowest <= address <= c.highest
  {
    if s.memSize != 0 {
      assert Covers(s, s.vaddr + (s.memSize - 1));
    }
  }

  // ----- One segment -----

  function IsPowerOfTwo(n: nat): (r: bool) {
    if n <= 1 then n == 1 else n % 2 == 0 && IsPowerOfTwo(n / 2)
  }

  /** What is wrong with the segment of a program header. */
  function Fault(s: Segment, index: nat, fileLength: U64, c: Constraints): (fault: Option<Error>) {
    if s.write && s.execute then Some(WritableAndExecutable(index))
    else if s.fileSize > s.memSize then Some(SegmentMemorySize(index))
    else if s.fileOffset + s.fileSize > U64_MAX then Some(Overflow)
    else if s.fileOffset + s.fileSize > fileLength then Some(SegmentFileRange(index))
    else if s.align != 0 && (!IsPowerOfTwo(s.align) || s.vaddr % s.align != s.fileOffset % s.align)
    then Some(SegmentAlignment(index))
    else if !Allows(c, s.vaddr, s.memSize) then Some(SegmentOutsideBounds(index))
    else None
  }

  /** What an image promises of each of its segments. */
  ghost predicate Loads(s: Segment, fileLength: nat, c: Constraints) {
    && !(s.write && s.execute)
    && s.fileSize <= s.memSize
    && s.fileOffset + s.fileSize <= fileLength
    && (s.align != 0 ==> IsPowerOfTwo(s.align) && s.vaddr % s.align == s.fileOffset % s.align)
    && c.lowest <= s.vaddr <= c.highest
    && (forall address: nat :: Covers(s, address) ==> c.lowest <= address <= c.highest)
  }

  lemma FaultlessLoads(s: Segment, index: nat, fileLength: U64, c: Constraints)
    ensures Fault(s, index, fileLength, c).None? <==> Loads(s, fileLength, c)
  {
    hide IsPowerOfTwo;
    AllowsIsInside(c, s);
  }

  // ----- Segments together -----

  /** No two of the segments share a byte. */
  ghost predicate Apart(segments: seq<Segment>) {
    forall i, j, address :: 0 <= i < j < |segments| && Covers(segments[i], address) ==> !Covers(segments[j], address)
  }

  ghost predicate Sorted(segments: seq<Segment>) {
    forall i, j :: 0 <= i <= j < |segments| ==> segments[i].vaddr <= segments[j].vaddr
  }

  lemma {:induction false} ApartAgain(segments: seq<Segment>, others: seq<Segment>)
    requires multiset(segments) == multiset(others) && !Apart(segments)
    ensures !Apart(others)
  {
    var i, j, address :| 0 <= i < j < |segments| && Covers(segments[i], address) && Covers(segments[j], address);
    var k, l := TwoPlaces(segments, others, i, j);
    assert Covers(others[k], address) && Covers(others[l], address);
  }

  /** Two places of a sequence have two places in any rearrangement of it. */
  lemma {:induction false} TwoPlaces(segments: seq<Segment>, others: seq<Segment>, i: nat, j: nat)
    returns (k: nat, l: nat)
    requires multiset(segments) == multiset(others) && i < j < |segments|
    ensures k < |others| && l < |others| && k != l && others[k] == segments[i] && others[l] == segments[j]
  {
    assert segments[i] in multiset(others);
    k :| 0 <= k < |others| && others[k] == segments[i];
    Without(others, k);
    Without(segments, i);
    var rest, left := others[..k] + others[k + 1..], segments[..i] + segments[i + 1..];
    assert left[j - 1] == segments[j];
    assert segments[j] in multiset(left);
    assert multiset(left) == multiset(rest);
    var m :| 0 <= m < |rest| && rest[m] == segments[j];
    l := if m < k then m else m + 1;
  }

  lemma {:induction false} Without(s: seq<Segment>, i: nat)
    requires i < |s|
    ensures multiset(s[..i] + s[i + 1..]) == multiset(s) - multiset{s[i]}
  {
    assert s == s[..i] + [s[i]] + s[i + 1..];
  }

  /** Rearranging segments neither parts them nor brings them together. */
  lemma ApartIsKept(segments: seq<Segment>, others: seq<Segment>)
    requires multiset(segments) == multiset(others)
    ensures Apart(segments) <==> Apart(others)
  {
    hide Apart;
    if !Apart(segments) {
      ApartAgain(segments, others);
    }
    if !Apart(others) {
      ApartAgain(others, segments);
    }
  }
}
