/** From the bytes of a file to its segments: what is read, what is refused, and in which order. */
module ElfImage {

  import opened Wrappers
  import opened Words
  import opened ElfSegments
  import opened ElfOrder

  const EHDR_LEN: nat := 64
  const PHDR_LEN: nat := 56
  const MAX_SEGMENTS: nat := 16
  const MAGIC: nat := 0x464C_457F
  const CLASS_64: nat := 2
  const DATA_LSB: nat := 1
  const TYPE_EXEC: nat := 2
  const MACHINE_X86_64: nat := 0x3E
  const PT_LOAD: nat := 1

  /** A little-endian word. */
  function Word(bytes: seq<Byte>, at: nat): (w: U32)
    requires at + 4 <= |bytes|
  {
    var a: nat, b: nat, c: nat, d: nat := bytes[at], bytes[at + 1], bytes[at + 2], bytes[at + 3];
    a + b * 0x100 + c * 0x1_0000 + d * 0x100_0000
  }

  function Long(bytes: seq<Byte>, at: nat): (n: U64)
    requires at + 8 <= |bytes|
  {
    var low: nat, high: nat := Word(bytes, at), Word(bytes, at + 4);
    high * 0x1_0000_0000 + low
  }

  datatype FileHeader = FileHeader(entry: U64, phoff: U64, phentsize: nat, phnum: nat)

  function HeaderOf(bytes: seq<Byte>): (r: Result<FileHeader, Error>)
    ensures r.Ok? ==> |bytes| >= EHDR_LEN && PHDR_LEN <= r.value.phentsize < 0x1_0000 && r.value.phnum < 0x1_0000
  {
    if |bytes| < EHDR_LEN then Err(TooShort)
    else
      var ident, kind, sizes, counts := Word(bytes, 4), Word(bytes, 16), Word(bytes, 52), Word(bytes, 56);
      if Word(bytes, 0) != MAGIC then Err(BadMagic)
      else if ident % 0x100 != CLASS_64 then Err(NotClass64)
      else if ident / 0x100 % 0x100 != DATA_LSB then Err(NotLittleEndian)
      else if kind % 0x1_0000 != TYPE_EXEC then Err(NotExecutable)
      else if kind / 0x1_0000 != MACHINE_X86_64 then Err(WrongMachine)
      else if sizes % 0x1_0000 < EHDR_LEN then Err(HeaderSize)
      else if sizes / 0x1_0000 < PHDR_LEN then Err(ProgramHeaderSize)
      else Ok(FileHeader(Long(bytes, 24), Long(bytes, 32), sizes / 0x1_0000, counts % 0x1_0000))
  }

  /** The segment a program header asks for, where it asks for one. */
  function SegmentAt(bytes: seq<Byte>, at: nat): (s: Option<Segment>)
    requires at + PHDR_LEN <= |bytes|
  {
    if Word(bytes, at) != PT_LOAD then None
    else
      var flags := Word(bytes, at + 4);
      Some(Segment(
        Long(bytes, at + 8), Long(bytes, at + 32), Long(bytes, at + 16), Long(bytes, at + 40), Long(bytes, at + 48),
        flags / 2 % 2 == 1, flags % 2 == 1))
  }

  /** The program header table lies in the file. */
  predicate HasTable(bytes: seq<Byte>, h: FileHeader) {
    h.phentsize >= PHDR_LEN && h.phoff + h.phentsize * h.phnum <= |bytes| <= U64_MAX
  }

  function Offset(h: FileHeader, index: nat): (at: nat) {
    h.phoff + index * h.phentsize
  }

  lemma EntryIsInFile(bytes: seq<Byte>, h: FileHeader, index: nat)
    requires HasTable(bytes, h) && index < h.phnum
    ensures Offset(h, index) + PHDR_LEN <= |bytes|
  {
    assert (index + 1) * h.phentsize <= h.phnum * h.phentsize;
    assert (index + 1) * h.phentsize == index * h.phentsize + h.phentsize;
  }

  /** The segment the header at an index asks for. */
  function Entry(bytes: seq<Byte>, h: FileHeader, index: nat): (s: Option<Segment>)
    requires HasTable(bytes, h) && index < h.phnum
  {
    EntryIsInFile(bytes, h, index);
    SegmentAt(bytes, Offset(h, index))
  }

  /** The segments of the first `n` headers. */
  function Loadable(bytes: seq<Byte>, h: FileHeader, n: nat): (segments: seq<Segment>)
    requires HasTable(bytes, h) && n <= h.phnum
  {
    if n == 0 then []
    else
      var s := Entry(bytes, h, n - 1);
      Loadable(bytes, h, n - 1) + (if s.Some? then [s.value] else [])
  }

  /** The first header that is refused, with its reason: a faulty segment, or one more than an image holds. */
  ghost function Refusal(bytes: seq<Byte>, h: FileHeader, c: Constraints, n: nat): (fault: Option<Error>)
    requires HasTable(bytes, h) && n <= h.phnum
  {
    if n == 0 then None
    else if Refusal(bytes, h, c, n - 1).Some? then Refusal(bytes, h, c, n - 1)
    else
      var s := Entry(bytes, h, n - 1);
      if s.None? then None
      else if Fault(s.value, n - 1, |bytes|, c).Some? then Fault(s.value, n - 1, |bytes|, c)
      else if |Loadable(bytes, h, n - 1)| >= MAX_SEGMENTS then Some(TooManySegments) else None
  }

  /** Nothing is refused exactly when every segment loads and there is room for them all. */
  lemma {:induction false} RefusesNothing(bytes: seq<Byte>, h: FileHeader, c: Constraints, n: nat)
    requires HasTable(bytes, h) && n <= h.phnum
    ensures Refusal(bytes, h, c, n).None?
            <==> |Loadable(bytes, h, n)| <= MAX_SEGMENTS && forall s ::
                s in Loadable(bytes, h, n) ==> Loads(s, |bytes|, c)
  {
    hide Fault, Loads, Entry;
    if n > 0 {
      RefusesNothing(bytes, h, c, n - 1);
      var s := Entry(bytes, h, n - 1);
      var before := Loadable(bytes, h, n - 1);
      if s.Some? {
        FaultlessLoads(s.value, n - 1, |bytes|, c);
        assert forall t :: t in before + [s.value] <==> t in before || t == s.value;
      }
    }
  }

  datatype Image = Image(entry: U64, segments: seq<Segment>)

  ghost predicate Starts(segments: seq<Segment>, entry: U64) {
    exists s :: s in segments && s.execute && Covers(s, entry)
  }

  lemma ContainsIsCovers(s: Segment, fileLength: nat, c: Constraints, address: U64)
    requires Loads(s, fileLength, c)
    ensures Contains(s, address) <==> Covers(s, address)
  {
    AllowsIsInside(c, s);
  }

  /** Fills slots with the segments the table asks for. */
  method Collect(bytes: seq<Byte>, h: FileHeader, c: Constraints, slots: array<Option<Segment>>)
    returns (r: Result<nat, Error>)
    requires HasTable(bytes, h) && slots.Length == MAX_SEGMENTS
    modifies slots
    ensures Refusal(bytes, h, c, h.phnum).Some? ==> r == Err(Refusal(bytes, h, c, h.phnum).value)
    ensures Refusal(bytes, h, c, h.phnum).None? ==>
              && r == Ok(|Loadable(bytes, h, h.phnum)|)
              && Filled(slots[..], r.value)
              && Held(slots[..], r.value) == Loadable(bytes, h, h.phnum)
  {
    hide Entry, Fault;
    var count := 0;
    for index := 0 to h.phnum
      invariant Refusal(bytes, h, c, index).None?
      invariant count == |Loadable(bytes, h, index)| && Filled(slots[..], count)
      invariant Held(slots[..], count) == Loadable(bytes, h, index)
    {
      var segment := Entry(bytes, h, index);
      if segment.Some? {
        var fault := Fault(segment.value, index, |bytes|, c);
        if fault.Some? || count == MAX_SEGMENTS {
          RefusedOnce(bytes, h, c, index + 1, h.phnum);
          return Err(if fault.Some? then fault.value else TooManySegments);
        }
        slots[count] := segment;
        count := count + 1;
      }
    }
    return Ok(count);
  }

  lemma {:induction false} RefusedOnce(bytes: seq<Byte>, h: FileHeader, c: Constraints, n: nat, m: nat)
    requires HasTable(bytes, h) && n <= m <= h.phnum && Refusal(bytes, h, c, n).Some?
    ensures Refusal(bytes, h, c, m) == Refusal(bytes, h, c, n)
    decreases m
  {
    hide Fault, Loadable, Entry;
    if n < m {
      RefusedOnce(bytes, h, c, n, m - 1);
    }
  }

  /** A segment that may execute contains the address. */
  ghost predicate Enters(segments: seq<Segment>, entry: U64) {
    exists i :: 0 <= i < |segments| && segments[i].execute && Contains(segments[i], entry)
  }

  method Executes(slots: array<Option<Segment>>, count: nat, entry: U64) returns (found: bool)
    requires Filled(slots[..], count)
    ensures found <==> Enters(Held(slots[..], count), entry)
  {
    ghost var h := Held(slots[..], count);
    for i := 0 to count
      invariant forall k :: 0 <= k < i ==> !(slots[k].value.execute && Contains(slots[k].value, entry))
    {
      if slots[i].value.execute && Contains(slots[i].value, entry) {
        assert h[i].execute && Contains(h[i], entry);
        return true;
      }
    }
    return false;
  }

  method Parse(bytes: seq<Byte>, c: Constraints) returns (r: Result<Image, Error>)
    requires |bytes| <= U64_MAX
    ensures HeaderOf(bytes).Err? ==> r == Err(HeaderOf(bytes).error)
    ensures HeaderOf(bytes).Ok? ==>
              var h := HeaderOf(bytes).value;
              var end := h.phoff + h.phentsize * h.phnum;
              && (end > U64_MAX ==> r == Err(Overflow))
              && (|bytes| < end <= U64_MAX ==> r == Err(ProgramHeaderTable))
              && (end <= |bytes| ==> Judged(bytes, h, c, r))
  {
    var header := HeaderOf(bytes);
    if header.Err? {
      return Err(header.error);
    }
    var h := header.value;
    var end := h.phoff + h.phentsize * h.phnum;
    if end > U64_MAX {
      return Err(Overflow);
    }
    if end > |bytes| {
      return Err(ProgramHeaderTable);
    }
    r := ParseSegments(bytes, h, c);
  }

  /** The answer about a file whose program header table lies in it. */
  ghost predicate Judged(bytes: seq<Byte>, h: FileHeader, c: Constraints, r: Result<Image, Error>)
    requires HasTable(bytes, h)
  {
    var segments := Loadable(bytes, h, h.phnum);
    var refusal := Refusal(bytes, h, c, h.phnum);
    && (refusal.Some? ==> r == Err(refusal.value))
    && (refusal.None? ==>
          && (segments == [] ==> r == Err(NoSegments))
          && (r == Err(SegmentsOverlap) <==> !Apart(segments))
          && (r == Err(EntryNotExecutable) <==> segments != [] && Apart(segments) && !Starts(segments, h.entry))
          && (r.Ok? <==> segments != [] && Apart(segments) && Starts(segments, h.entry))
          && (r.Ok? ==>
                && r.value.entry == h.entry
                && Sorted(r.value.segments)
                && multiset(r.value.segments) == multiset(segments)))
  }

  method ParseSegments(bytes: seq<Byte>, h: FileHeader, c: Constraints) returns (r: Result<Image, Error>)
    requires HasTable(bytes, h)
    ensures Judged(bytes, h, c, r)
  {
    hide Apart, Sorted, Loadable, Refusal, Loads;
    var slots := new Option<Segment>[MAX_SEGMENTS](_ => None);
    var collected := Collect(bytes, h, c, slots);
    if collected.Err? {
      return Err(collected.error);
    }
    var count := collected.value;
    ghost var segments := Loadable(bytes, h, h.phnum);
    if count == 0 {
      NoneIsApart();
      return Err(NoSegments);
    }
    SortByVaddr(slots, count);
    ghost var sorted := Held(slots[..], count);
    ApartIsKept(sorted, segments);
    var apart := CheckOverlaps(slots, count);
    if !apart {
      return Err(SegmentsOverlap);
    }
    var starts := Executes(slots, count, h.entry);
    StartsIsContained(bytes, h, c, segments, sorted);
    if !starts {
      return Err(EntryNotExecutable);
    }
    return Ok(Image(h.entry, Held(slots[..], count)));
  }

  lemma NoneIsApart()
    ensures Apart([])
  {
  }

  lemma StartsIsContained(bytes: seq<Byte>, h: FileHeader, c: Constraints, segments: seq<Segment>, sorted: seq<Segment>)
    requires HasTable(bytes, h) && segments == Loadable(bytes, h, h.phnum) && Refusal(bytes, h, c, h.phnum).None?
    requires multiset(sorted) == multiset(segments)
    ensures Starts(segments, h.entry) <==> Enters(sorted, h.entry)
  {
    hide Loadable, Refusal, Contains, Covers, Loads;
    RefusesNothing(bytes, h, c, h.phnum);
    forall i | 0 <= i < |sorted| ensures sorted[i] in segments
        && (Contains(sorted[i], h.entry) <==> Covers(sorted[i], h.entry)) {
      assert sorted[i] in multiset(segments);
      ContainsIsCovers(sorted[i], |bytes|, c, h.entry);
    }
    if Starts(segments, h.entry) {
      var s :| s in segments && s.execute && Covers(s, h.entry);
      assert s in multiset(sorted);
    }
  }

  /** What an image promises: its segments load, are sorted and apart, and it starts in one that may execute. */
  lemma ImageIsSound(bytes: seq<Byte>, h: FileHeader, c: Constraints, r: Result<Image, Error>)
    requires HasTable(bytes, h) && Judged(bytes, h, c, r) && r.Ok?
    ensures Sorted(r.value.segments) && Apart(r.value.segments) && Starts(r.value.segments, r.value.entry)
    ensures 1 <= |r.value.segments| <= MAX_SEGMENTS
    ensures forall s :: s in r.value.segments ==> Loads(s, |bytes|, c)
  {
    hide Apart, Sorted, Loadable, Refusal, Loads;
    var segments := Loadable(bytes, h, h.phnum);
    RefusesNothing(bytes, h, c, h.phnum);
    ApartIsKept(r.value.segments, segments);
    assert |r.value.segments| == |multiset(r.value.segments)| == |multiset(segments)| == |segments|;
    assert forall s :: s in r.value.segments <==> s in multiset(r.value.segments);
    assert forall s :: s in segments <==> s in multiset(segments);
  }
}
