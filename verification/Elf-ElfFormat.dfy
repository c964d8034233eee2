/** The headers of an ELF64 file as their format lays them out, field by field, and that the parser reads exactly
    those fields. */
module ElfFormat {

  import opened Wrappers
  import opened Words
  import opened ElfSegments
  import opened ElfImage

  type U16 = n: nat | n <= 0xFFFF

  /** A number in so many bytes, the least significant first. */
  function LittleEndian(n: nat, width: nat): (bytes: seq<Byte>)
    ensures |bytes| == width
  {
    if width == 0 then [] else [n % 0x100] + LittleEndian(n / 0x100, width - 1)
  }

  // ----- Program headers -----

  /** What may be done with a segment; `rest` are the bits above those. */
  datatype Permissions = Permissions(execute: bool, write: bool, read: bool, rest: nat)

  function Bit(b: bool): (n: nat) {
    if b then 1 else 0
  }

  function Flags(p: Permissions): (flags: nat) {
    Bit(p.execute) + 2 * Bit(p.write) + 4 * Bit(p.read) + 8 * p.rest
  }

  datatype ProgramHeader = ProgramHeader(
    kind: U32, permissions: Permissions, offset: U64, vaddr: U64, paddr: U64, filesz: U64, memsz: U64, align: U64)

  function ProgramBytes(p: ProgramHeader): (bytes: seq<Byte>)
    ensures |bytes| == 56
  {
    LittleEndian(p.kind, 4) + LittleEndian(Flags(p.permissions), 4) + LittleEndian(p.offset, 8)
    + LittleEndian(p.vaddr, 8) + LittleEndian(p.paddr, 8) + LittleEndian(p.filesz, 8) + LittleEndian(p.memsz, 8)
    + LittleEndian(p.align, 8)
  }

  /** The segment a program header asks for: one of kind 1 is loaded. */
  function Asked(p: ProgramHeader): (s: Option<Segment>) {
    if p.kind != 1 then None
    else Some(Segment(fileOffset := p.offset, fileSize := p.filesz, vaddr := p.vaddr, memSize := p.memsz,
      align := p.align, write := p.permissions.write, execute := p.permissions.execute))
  }

  /** The segments a table of program headers asks for, in its order. */
  function AllAsked(table: seq<ProgramHeader>): (segments: seq<Segment>) {
    if table == [] then []
    else
      var s := Asked(table[|table| - 1]);
      AllAsked(table[..|table| - 1]) + (if s.Some? then [s.value] else [])
  }

  /** The file holds a table of program headers where its header says. */
  ghost predicate HoldsTable(bytes: seq<Byte>, h: FileHeader, table: seq<ProgramHeader>) {
    && HasTable(bytes, h) && |table| == h.phnum
    && forall i | 0 <= i < |table| :: HoldsAt(bytes, Offset(h, i), table[i])
  }

  ghost predicate HoldsAt(bytes: seq<Byte>, at: nat, p: ProgramHeader) {
    at + 56 <= |bytes| && bytes[at..at + 56] == ProgramBytes(p) && Flags(p.permissions) <= U32_MAX
  }

  /** What the parser collects is what the table asks for. */
  lemma {:induction false} TableIsRead(bytes: seq<Byte>, h: FileHeader, table: seq<ProgramHeader>, n: nat)
    requires HoldsTable(bytes, h, table) && n <= |table|
    ensures Loadable(bytes, h, n) == AllAsked(table[..n])
  {
    hide SegmentAt, Asked, HasTable, Offset;
    if n > 0 {
      TableIsRead(bytes, h, table, n - 1);
      assert table[..n][..n - 1] == table[..n - 1];
      assert HoldsAt(bytes, Offset(h, n - 1), table[n - 1]);
      SegmentIsRead(bytes, Offset(h, n - 1), table[n - 1]);
    }
  }

  /** The parser takes from a program header, wherever it stands, exactly its segment, and nothing from one of
      another kind. */
  lemma SegmentIsRead(bytes: seq<Byte>, at: nat, p: ProgramHeader)
    requires at + 56 <= |bytes| && bytes[at..at + 56] == ProgramBytes(p) && Flags(p.permissions) <= U32_MAX
    ensures SegmentAt(bytes, at) == Asked(p)
  {
    hide Word, Long, LittleEndian;
    FieldsStand(bytes, at, p);
    WordIs(bytes, at, p.kind);
    WordIs(bytes, at + 4, Flags(p.permissions));
    LongIs(bytes, at + 8, p.offset);
    LongIs(bytes, at + 16, p.vaddr);
    LongIs(bytes, at + 32, p.filesz);
    LongIs(bytes, at + 40, p.memsz);
    LongIs(bytes, at + 48, p.align);
  }

  /** Every header there can be is one of those. */
  lemma HeaderIsThere(bytes: seq<Byte>, at: nat) returns (p: ProgramHeader)
    requires at + 56 <= |bytes|
    ensures Flags(p.permissions) <= U32_MAX && bytes[at..at + 56] == ProgramBytes(p)
  {
    hide Word, Long, LittleEndian;
    var flags := Word(bytes, at + 4);
    p := ProgramHeader(Word(bytes, at),
      Permissions(flags % 2 == 1, flags / 2 % 2 == 1, flags / 4 % 2 == 1, flags / 8),
      Long(bytes, at + 8), Long(bytes, at + 16), Long(bytes, at + 24), Long(bytes, at + 32), Long(bytes, at + 40),
      Long(bytes, at + 48));
    assert Flags(p.permissions) == flags;
    WordStands(bytes, at);
    WordStands(bytes, at + 4);
    LongStands(bytes, at + 8);
    LongStands(bytes, at + 16);
    LongStands(bytes, at + 24);
    LongStands(bytes, at + 32);
    LongStands(bytes, at + 40);
    LongStands(bytes, at + 48);
    Pieces(bytes[at..at + 56]);
    var b := bytes[at..at + 56];
    assert b[0..4] == bytes[at..at + 4] && b[4..8] == bytes[at + 4..at + 8] && b[8..16] == bytes[at + 8..at + 16];
    assert b[16..24] == bytes[at + 16..at + 24] && b[24..32] == bytes[at + 24..at + 32];
    assert b[32..40] == bytes[at + 32..at + 40] && b[40..48] == bytes[at + 40..at + 48];
    assert b[48..56] == bytes[at + 48..at + 56];
  }

  lemma Pieces(b: seq<Byte>)
    requires |b| == 56
    ensures b == b[0..4] + b[4..8] + b[8..16] + b[16..24] + b[24..32] + b[32..40] + b[40..48] + b[48..56]
  {
  }

  /** The fields of a header, each at its place. */
  lemma FieldsStand(bytes: seq<Byte>, at: nat, p: ProgramHeader)
    requires at + 56 <= |bytes| && bytes[at..at + 56] == ProgramBytes(p)
    ensures bytes[at..at + 4] == LittleEndian(p.kind, 4)
    ensures bytes[at + 4..at + 8] == LittleEndian(Flags(p.permissions), 4)
    ensures bytes[at + 8..at + 16] == LittleEndian(p.offset, 8)
    ensures bytes[at + 16..at + 24] == LittleEndian(p.vaddr, 8)
    ensures bytes[at + 32..at + 40] == LittleEndian(p.filesz, 8)
    ensures bytes[at + 40..at + 48] == LittleEndian(p.memsz, 8)
    ensures bytes[at + 48..at + 56] == LittleEndian(p.align, 8)
  {
    hide LittleEndian, Flags;
    var b := ProgramBytes(p);
    Slice(bytes, at, b, 0, 4);
    Slice(bytes, at, b, 4, 8);
    Slice(bytes, at, b, 8, 16);
    Slice(bytes, at, b, 16, 24);
    Slice(bytes, at, b, 32, 40);
    Slice(bytes, at, b, 40, 48);
    Slice(bytes, at, b, 48, 56);
  }

  lemma Slice(bytes: seq<Byte>, at: nat, b: seq<Byte>, i: nat, j: nat)
    requires at + |b| <= |bytes| && bytes[at..at + |b|] == b && i <= j <= |b|
    ensures bytes[at + i..at + j] == b[i..j]
  {
    forall k | 0 <= k < j - i ensures bytes[at + i..at + j][k] == b[i..j][k] {
      assert b[i + k] == bytes[at..at + |b|][i + k];
    }
  }

  // ----- The file header -----

  datatype Ident = Ident(magic: seq<Byte>, class_: Byte, data: Byte, rest: seq<Byte>)

  datatype ElfHeader = ElfHeader(
    ident: Ident, kind: U16, machine: U16, version: U32, entry: U64, phoff: U64, shoff: U64, flags: U32,
    ehsize: U16, phentsize: U16, phnum: U16, shentsize: U16, shnum: U16, shstrndx: U16)

  ghost predicate WellFormed(h: ElfHeader) {
    |h.ident.magic| == 4 && |h.ident.rest| == 10
  }

  function IdentBytes(i: Ident): (bytes: seq<Byte>) {
    i.magic + [i.class_, i.data] + i.rest
  }

  function HeaderBytes(h: ElfHeader): (bytes: seq<Byte>) {
    IdentBytes(h.ident) + LittleEndian(h.kind, 2) + LittleEndian(h.machine, 2) + LittleEndian(h.version, 4)
    + LittleEndian(h.entry, 8) + LittleEndian(h.phoff, 8) + LittleEndian(h.shoff, 8) + LittleEndian(h.flags, 4)
    + LittleEndian(h.ehsize, 2) + LittleEndian(h.phentsize, 2) + LittleEndian(h.phnum, 2)
    + LittleEndian(h.shentsize, 2) + LittleEndian(h.shnum, 2) + LittleEndian(h.shstrndx, 2)
  }

  /** The byte 0x7F and the letters `ELF`. */
  const ELF_MAGIC: seq<Byte> := [0x7F, 'E' as int, 'L' as int, 'F' as int]

  /** What is asked of a file header, in the order it is asked: 64-bit, little-endian, an executable file for
      x86-64, and headers of at least the size they have. */
  function Checked(h: ElfHeader): (r: Result<FileHeader, Error>) {
    if h.ident.magic != ELF_MAGIC then Err(BadMagic)
    else if h.ident.class_ != 2 then Err(NotClass64)
    else if h.ident.data != 1 then Err(NotLittleEndian)
    else if h.kind != 2 then Err(NotExecutable)
    else if h.machine != 62 then Err(WrongMachine)
    else if h.ehsize < 64 then Err(HeaderSize)
    else if h.phentsize < 56 then Err(ProgramHeaderSize)
    else Ok(FileHeader(entry := h.entry, phoff := h.phoff, phentsize := h.phentsize, phnum := h.phnum))
  }

  /** The parser takes from a file header exactly its fields. */
  lemma HeaderIsRead(bytes: seq<Byte>, h: ElfHeader)
    requires WellFormed(h) && |bytes| >= 64 && bytes[..64] == HeaderBytes(h)
    ensures HeaderOf(bytes) == Checked(h)
  {
    hide Word, Long, LittleEndian, Checked;
    HeaderStands(bytes, h);
    MagicIs(bytes, h.ident.magic);
    IdentIs(bytes, h.ident.class_, h.ident.data);
    PairIs(bytes, 16, h.kind, h.machine);
    LongIs(bytes, 24, h.entry);
    LongIs(bytes, 32, h.phoff);
    PairIs(bytes, 52, h.ehsize, h.phentsize);
    PairIs(bytes, 56, h.phnum, h.shentsize);
    CheckedIs(bytes, h);
  }

  lemma CheckedIs(bytes: seq<Byte>, h: ElfHeader)
    requires WellFormed(h) && |bytes| >= 64
    requires Word(bytes, 0) == MAGIC <==> h.ident.magic == ELF_MAGIC
    requires Word(bytes, 4) % 0x100 == h.ident.class_ && Word(bytes, 4) / 0x100 % 0x100 == h.ident.data
    requires Word(bytes, 16) == h.kind + 0x1_0000 * h.machine
    requires Word(bytes, 52) == h.ehsize + 0x1_0000 * h.phentsize
    requires Word(bytes, 56) == h.phnum + 0x1_0000 * h.shentsize
    requires Long(bytes, 24) == h.entry && Long(bytes, 32) == h.phoff
    ensures HeaderOf(bytes) == Checked(h)
  {
    hide Word, Long;
    Halves(h.kind, h.machine);
    Halves(h.ehsize, h.phentsize);
    Halves(h.phnum, h.shentsize);
  }

  lemma Halves(low: U16, high: U16)
    ensures (low + 0x1_0000 * high) % 0x1_0000 == low && (low + 0x1_0000 * high) / 0x1_0000 == high
  {
  }

  lemma HeaderStands(bytes: seq<Byte>, h: ElfHeader)
    requires WellFormed(h) && |bytes| >= 64 && bytes[..64] == HeaderBytes(h)
    ensures bytes[0..4] == h.ident.magic && bytes[4] == h.ident.class_ && bytes[5] == h.ident.data
    ensures bytes[16..18] == LittleEndian(h.kind, 2) && bytes[18..20] == LittleEndian(h.machine, 2)
    ensures bytes[24..32] == LittleEndian(h.entry, 8) && bytes[32..40] == LittleEndian(h.phoff, 8)
    ensures bytes[52..54] == LittleEndian(h.ehsize, 2) && bytes[54..56] == LittleEndian(h.phentsize, 2)
    ensures bytes[56..58] == LittleEndian(h.phnum, 2) && bytes[58..60] == LittleEndian(h.shentsize, 2)
  {
    hide LittleEndian;
    var b := HeaderBytes(h);
    assert bytes[0..4] == b[0..4] && bytes[4] == b[4] && bytes[5] == b[5];
    assert bytes[16..18] == b[16..18] && bytes[18..20] == b[18..20];
    assert bytes[24..32] == b[24..32] && bytes[32..40] == b[32..40];
    assert bytes[52..54] == b[52..54] && bytes[54..56] == b[54..56];
    assert bytes[56..58] == b[56..58] && bytes[58..60] == b[58..60];
  }

  lemma MagicIs(bytes: seq<Byte>, magic: seq<Byte>)
    requires |bytes| >= 64 && |magic| == 4 && bytes[0..4] == magic
    ensures Word(bytes, 0) == MAGIC <==> magic == ELF_MAGIC
  {
    assert bytes[0] == magic[0] && bytes[1] == magic[1] && bytes[2] == magic[2] && bytes[3] == magic[3];
    assert 'E' as int == 0x45 && 'L' as int == 0x4C && 'F' as int == 0x46;
  }

  lemma IdentIs(bytes: seq<Byte>, class_: Byte, data: Byte)
    requires |bytes| >= 64 && bytes[4] == class_ && bytes[5] == data
    ensures Word(bytes, 4) % 0x100 == class_ && Word(bytes, 4) / 0x100 % 0x100 == data
  {
  }

  // ----- Numbers -----

  lemma FourBytes(n: nat)
    ensures LittleEndian(n, 4) == [n % 0x100, n / 0x100 % 0x100, n / 0x1_0000 % 0x100, n / 0x100_0000 % 0x100]
  {
    var n1, n2, n3 := n / 0x100, n / 0x100 / 0x100, n / 0x100 / 0x100 / 0x100;
    assert LittleEndian(n3, 1) == [n3 % 0x100];
    assert LittleEndian(n2, 2) == [n2 % 0x100, n3 % 0x100];
    assert LittleEndian(n1, 3) == [n1 % 0x100, n2 % 0x100, n3 % 0x100];
    assert n2 == n / 0x1_0000 && n3 == n / 0x100_0000;
  }

  lemma TwoBytes(n: nat)
    ensures LittleEndian(n, 2) == [n % 0x100, n / 0x100 % 0x100]
  {
    assert LittleEndian(n / 0x100, 1) == [n / 0x100 % 0x100];
  }

  lemma EightBytes(n: nat)
    ensures LittleEndian(n, 8) == LittleEndian(n, 4) + LittleEndian(n / 0x1_0000_0000, 4)
  {
    var a, b, c, d := n, n / 0x100, n / 0x1_0000, n / 0x100_0000;
    var e := n / 0x1_0000_0000;
    assert b / 0x100 == c && c / 0x100 == d && d / 0x100 == e;
    assert LittleEndian(d, 5) == [d % 0x100] + LittleEndian(e, 4);
    assert LittleEndian(c, 6) == [c % 0x100] + LittleEndian(d, 5);
    assert LittleEndian(b, 7) == [b % 0x100] + LittleEndian(c, 6);
    assert LittleEndian(a, 8) == [a % 0x100] + LittleEndian(b, 7);
    FourBytes(n);
  }

  lemma WordIs(bytes: seq<Byte>, at: nat, n: nat)
    requires at + 4 <= |bytes| && bytes[at..at + 4] == LittleEndian(n, 4) && n <= U32_MAX
    ensures Word(bytes, at) == n
  {
    hide LittleEndian;
    FourBytes(n);
    var w := bytes[at..at + 4];
    assert bytes[at] == w[0] && bytes[at + 1] == w[1] && bytes[at + 2] == w[2] && bytes[at + 3] == w[3];
    var b, c, d := n / 0x100, n / 0x1_0000, n / 0x100_0000;
    assert b / 0x100 == c && c / 0x100 == d && d < 0x100;
  }

  lemma LongIs(bytes: seq<Byte>, at: nat, n: U64)
    requires at + 8 <= |bytes| && bytes[at..at + 8] == LittleEndian(n, 8)
    ensures Long(bytes, at) == n
  {
    hide Word, LittleEndian;
    EightBytes(n);
    var low, high := n % 0x1_0000_0000, n / 0x1_0000_0000;
    LowBytes(n);
    assert bytes[at..at + 4] == bytes[at..at + 8][..4] == LittleEndian(low, 4);
    assert bytes[at + 4..at + 4 + 4] == bytes[at..at + 8][4..] == LittleEndian(high, 4);
    WordIs(bytes, at, low);
    WordIs(bytes, at + 4, high);
  }

  lemma LowBytes(n: nat)
    ensures LittleEndian(n % 0x1_0000_0000, 4) == LittleEndian(n, 4)
  {
    hide LittleEndian;
    FourBytes(n);
    FourBytes(n % 0x1_0000_0000);
    var b, c, d, e := n / 0x100, n / 0x1_0000, n / 0x100_0000, n / 0x1_0000_0000;
    assert b / 0x100 == c && c / 0x100 == d && d / 0x100 == e;
    Digits(n % 0x1_0000_0000, n % 0x100, b % 0x100, c % 0x100, d % 0x100);
  }

  /** The digits of a number to the base of 256. */
  lemma Digits(n: nat, a: nat, b: nat, c: nat, d: nat)
    requires a < 0x100 && b < 0x100 && c < 0x100 && d < 0x100
    requires n == a + b * 0x100 + c * 0x1_0000 + d * 0x100_0000
    ensures n % 0x100 == a && n / 0x100 % 0x100 == b && n / 0x1_0000 % 0x100 == c && n / 0x100_0000 % 0x100 == d
  {
    assert n == a + 0x100 * (b + 0x100 * (c + 0x100 * d));
    assert n / 0x100 == b + 0x100 * (c + 0x100 * d);
    assert n / 0x1_0000 == n / 0x100 / 0x100 == c + 0x100 * d;
    assert n / 0x100_0000 == n / 0x1_0000 / 0x100 == d;
  }

  lemma PairIs(bytes: seq<Byte>, at: nat, low: U16, high: U16)
    requires at + 4 <= |bytes|
    requires bytes[at..at + 2] == LittleEndian(low, 2) && bytes[at + 2..at + 4] == LittleEndian(high, 2)
    ensures Word(bytes, at) == low + 0x1_0000 * high
  {
    TwoBytes(low);
    TwoBytes(high);
    var a, b := bytes[at..at + 2], bytes[at + 2..at + 4];
    assert bytes[at] == a[0] && bytes[at + 1] == a[1] && bytes[at + 2] == b[0] && bytes[at + 3] == b[1];
  }

  lemma WordStands(bytes: seq<Byte>, at: nat)
    requires at + 4 <= |bytes|
    ensures bytes[at..at + 4] == LittleEndian(Word(bytes, at), 4)
  {
    var n := Word(bytes, at);
    FourBytes(n);
    Digits(n, bytes[at], bytes[at + 1], bytes[at + 2], bytes[at + 3]);
  }

  lemma LongStands(bytes: seq<Byte>, at: nat)
    requires at + 8 <= |bytes|
    ensures bytes[at..at + 8] == LittleEndian(Long(bytes, at), 8)
  {
    hide Word, LittleEndian;
    var n := Long(bytes, at);
    WordStands(bytes, at);
    WordStands(bytes, at + 4);
    EightBytes(n);
    LowBytes(n);
    assert n % 0x1_0000_0000 == Word(bytes, at) && n / 0x1_0000_0000 == Word(bytes, at + 4);
    assert bytes[at..at + 8] == bytes[at..at + 4] + bytes[at + 4..at + 4 + 4];
  }
}
