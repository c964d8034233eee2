/** Why a segment is refused: the first thing that is wrong with it, by name. */
module ElfFaults {
  import opened Wrappers
  import opened Words
  import opened ElfSegments

  function TwoToThe(k: nat): (n: nat)
    ensures n >= 1
  {
    if k == 0 then 1 else 2 * TwoToThe(k - 1)
  }

  ghost predicate IsPower(n: nat) {
    exists k: nat :: n == TwoToThe(k)
  }

  lemma {:induction false} PowersAre(n: nat)
    ensures IsPowerOfTwo(n) <==> IsPower(n)
  {
    if n <= 1 {
      assert TwoToThe(0) == 1;
    } else {
      PowersAre(n / 2);
      if IsPowerOfTwo(n) {
        var k: nat :| n / 2 == TwoToThe(k);
        assert n == TwoToThe(k + 1);
      }
      if k: nat :| n == TwoToThe(k) {
        assert n / 2 == TwoToThe(k - 1);
      }
    }
  }

  /** What may be wrong with a segment, in the order it is looked for. */
  ghost predicate Wrong(k: nat, s: Segment, fileLength: nat, c: Constraints) {
    match k
    case 0 => s.write && s.execute
    case 1 => s.memSize < s.fileSize
    case 2 => s.fileOffset + s.fileSize > U64_MAX
    case 3 => s.fileOffset + s.fileSize > fileLength
    case 4 => s.align != 0 && !Aligned(s)
    case 5 => !(c.lowest <= s.vaddr <= c.highest) || Escapes(s, c)
    case _ => false
  }

  /** The alignment is a power of two, and address and place in the file agree below it. */
  ghost predicate Aligned(s: Segment)
    requires s.align != 0
  {
    IsPower(s.align) && s.vaddr % s.align == s.fileOffset % s.align
  }

  /** A byte of it lies outside the bounds. */
  ghost predicate Escapes(s: Segment, c: Constraints) {
    exists address: nat :: Covers(s, address) && !(c.lowest <= address <= c.highest)
  }

  function Reason(k: nat, index: nat): (e: Error)
    requires k < 6
  {
    match k
    case 0 => WritableAndExecutable(index)
    case 1 => SegmentMemorySize(index)
    case 2 => Overflow
    case 3 => SegmentFileRange(index)
    case 4 => SegmentAlignment(index)
    case _ => SegmentOutsideBounds(index)
  }

  lemma AlignedIs(s: Segment)
    requires s.align != 0
    ensures Aligned(s) <==> IsPowerOfTwo(s.align) && s.vaddr % s.align == s.fileOffset % s.align
  {
    hide IsPowerOfTwo;
    PowersAre(s.align);
  }

  /** A reason is given exactly when it is the first that holds. */
  lemma FaultIsFirst(s: Segment, index: nat, fileLength: U64, c: Constraints, k: nat)
    requires k < 6
    ensures Fault(s, index, fileLength, c) == Some(Reason(k, index)) <==>
              Wrong(k, s, fileLength, c) && forall j | 0 <= j < k :: !Wrong(j, s, fileLength, c)
  {
    hide IsPowerOfTwo, Aligned, Covers, Allows;
    if s.align != 0 {
      AlignedIs(s);
    }
    AllowsIsInside(c, s);
    assert Wrong(5, s, fileLength, c) <==> !Allows(c, s.vaddr, s.memSize);
    assert Wrong(4, s, fileLength, c) <==> s.align != 0 && !Aligned(s);
    assert Wrong(0, s, fileLength, c) <==> s.write && s.execute;
    assert Wrong(1, s, fileLength, c) <==> s.memSize < s.fileSize;
    assert Wrong(2, s, fileLength, c) <==> s.fileOffset + s.fileSize > U64_MAX;
    assert Wrong(3, s, fileLength, c) <==> s.fileOffset + s.fileSize > fileLength;
  }
}
