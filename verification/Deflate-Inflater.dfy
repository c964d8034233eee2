/** The decoder over a buffer, against `InflateSpec` for its answer and `InflateWrites` for the buffer. */
module Inflater {
  import opened Words
  import opened BitStrings
  import opened Wrappers
  import opened DeflateErrors
  import opened BitIO
  import opened HuffmanCode
  import opened Huffman
  import opened DeflateTables
  import opened InflateSpec
  import opened InflateWrites
  import opened InflateComplete

  /** Two bytes, least significant first. */
  function U16(low: nat, high: nat): (v: nat) {
    low + 256 * high
  }

  lemma ShiftByte(v: nat)
    ensures Shl(v, 8) == 256 * v
  {
    assert Shl(v, 1) == 2 * v;
    assert Shl(v, 2) == 4 * v;
    assert Shl(v, 3) == 8 * v;
    assert Shl(v, 4) == 16 * v;
    assert Shl(v, 5) == 32 * v;
    assert Shl(v, 6) == 64 * v;
    assert Shl(v, 7) == 128 * v;
  }

  lemma OneByte(v: Byte)
    ensures BytesBits([v]) == ToBits(v, 8)
  {
    BytesBitsAppend([], v);
    assert [] + [v] == [v];
  }

  lemma TwoBytes(s: seq<Byte>, at: nat)
    requires at + 2 <= |s|
    ensures FromBits(BytesBits(s)[8 * at..8 * at + 16]) == U16(s[at], s[at + 1])
  {
    hide ToBits, FromBits, Shl, BytesBits;
    var x, y := s[at], s[at + 1];
    BytesBitsSlice(s, at, at + 2);
    assert s[at..at + 2] == [x] + [y];
    BytesBitsAppend([x], y);
    OneByte(x);
    Pow2Values();
    ToBitsConcat(x, 8, y, 8);
    ToFromBits(x + Shl(y, 8), 16);
    ShiftByte(y);
  }

  lemma WholeBytes(s: seq<Byte>, at: nat, n: nat)
    requires at + n <= |s|
    ensures BytesAt(BytesBits(s), 8 * at, n) == s[at..at + n]
  {
    hide BytesBits;
    BytesBitsSlice(s, at, at + n);
    BytesWritten(BytesBits(s), 8 * at, s[at..at + n]);
  }

  /** The bytes of a stored block in terms of the bytes of the stream. */
  function StoredBytes(s: seq<Byte>, at: nat): (r: Result<seq<Byte>, Error>) {
    if at + 4 > |s| then Err(Input)
    else
      var length, complement := U16(s[at], s[at + 1]), U16(s[at + 2], s[at + 3]);
      if length + complement != 0xFFFF || at + 4 + length > |s| then Err(Input)
      else Ok(s[at + 4..at + 4 + length])
  }

  function StoredOnBytes(s: seq<Byte>, at: nat, out: seq<Byte>, room: nat): (r: Result<Taken<seq<Byte>>, Error>) {
    var bytes :- StoredBytes(s, at);
    if |out| + |bytes| > room then Err(Output) else Ok(Taken(out + bytes, 8 * (at + 4 + |bytes|)))
  }

  lemma StoredIsOnBytes(s: seq<Byte>, pos: nat, out: seq<Byte>, room: nat)
    ensures StoredBlock(BytesBits(s), pos, out, room) == StoredOnBytes(s, (pos + 7) / 8, out, room)
  {
    hide BytesBits, BytesAt, FromBits, U16;
    var at := (pos + 7) / 8;
    if at + 4 <= |s| {
      TwoBytes(s, at);
      TwoBytes(s, at + 2);
      var length := U16(s[at], s[at + 1]);
      if at + 4 + length <= |s| {
        WholeBytes(s, at + 4, length);
      }
    }
  }

  /** What a part of the decoder leaves behind: the answer of the specification, the bytes of it
      in the buffer, and the reader where the specification stopped. */
  ghost predicate Leaves(spec: Result<Taken<seq<Byte>>, Error>, r: Result<nat, Error>, reader: Reader, out: array<Byte>)
    reads reader, out
  {
    match spec
    case Ok(taken) =>
      && r == Ok(|taken.item|) && |taken.item| <= out.Length && out[..|taken.item|] == taken.item
      && reader.Valid() && reader.Pos() == taken.end
    case Err(error) => r == Err(error)
  }

  /** A buffer with its front overwritten. */
  function Front(front: seq<Byte>, s: seq<Byte>): (r: seq<Byte>)
    requires |front| <= |s|
    ensures |r| == |s|
  {
    front + s[|front|..]
  }

  lemma FrontHere(s: seq<Byte>, n: nat)
    requires n <= |s|
    ensures Front(s[..n], s) == s
  {
  }

  lemma FrontThen(a: seq<Byte>, b: seq<Byte>, s: seq<Byte>)
    requires |a| <= |b| <= |s|
    ensures Front(b, Front(a, s)) == Front(b, s)
  {
  }

  lemma FrontStep(a: seq<Byte>, v: Byte, s: seq<Byte>)
    requires |a| < |s|
    ensures Front(a, s)[|a| := v] == Front(a + [v], s)
    ensures Front(a, s)[|a| := v][..|a| + 1] == a + [v]
  {
  }

  method CopyIn(out: array<Byte>, at: nat, bytes: seq<Byte>)
    requires at + |bytes| <= out.Length
    modifies out
    ensures out[..at + |bytes|] == old(out[..at]) + bytes
    ensures out[..] == Front(old(out[..at]) + bytes, old(out[..]))
  {
    forall i | 0 <= i < |bytes| {
      out[at + i] := bytes[i];
    }
    assert out[..] == out[..at + |bytes|] + out[at + |bytes|..];
  }

  /** `StoredBlock`, on the buffer. */
  method Stored(reader: Reader, out: array<Byte>, written: nat) returns (r: Result<nat, Error>)
    requires reader.Valid() && written <= out.Length
    modifies reader, out
    ensures Leaves(StoredBlock(BytesBits(reader.input), old(reader.Pos()), old(out[..written]), out.Length),
                   r, reader, out)
    ensures out[..] == Front(StoredWrites(BytesBits(reader.input), old(reader.Pos()), old(out[..written]), out.Length),
                             old(out[..]))
  {
    hide BytesBits, reader.Holds, StoredBlock, StoredBytes, Front;
    FrontHere(out[..], written);
    assert out[..][..written] == out[..written];
    StoredIsOnBytes(reader.input, reader.Pos(), out[..written], out.Length);
    var bytes :- ReadStored(reader);
    var end := written + |bytes|;
    if end > out.Length {
      return Err(Output);
    }
    CopyIn(out, written, bytes);
    return Ok(end);
  }

  /** The bytes a stored block carries, behind their number and its complement. */
  method ReadStored(reader: Reader) returns (r: Result<seq<Byte>, Error>)
    requires reader.Valid()
    modifies reader
    ensures r == StoredBytes(reader.input, (old(reader.Pos()) + 7) / 8)
    ensures r.Ok? ==> reader.Valid() && reader.Pos() == 8 * ((old(reader.Pos()) + 7) / 8 + 4 + |r.value|)
  {
    hide BytesBits, reader.Holds;
    ghost var s := reader.input;
    reader.Align();
    ghost var at := reader.at;
    var low :- reader.Bytes(2);
    var length := U16(low[0], low[1]);
    var high :- reader.Bytes(2);
    var complement := U16(high[0], high[1]);
    assert length == U16(s[at], s[at + 1]) && complement == U16(s[at + 2], s[at + 3]);
    if length != 0xFFFF - complement {
      return Err(Input);
    }
    var bytes :- reader.Bytes(length);
    return Ok(bytes);
  }

  /** `CodedBlock`, on the buffer. */
  method Coded(reader: Reader, out: array<Byte>, start: nat, literals: Tree, distances: Tree)
    returns (r: Result<nat, Error>)
    requires reader.Valid() && start <= out.Length && WellFormed(literals) && WellFormed(distances)
    modifies reader, out
    ensures Leaves(CodedBlock(BytesBits(reader.input), old(reader.Pos()), old(out[..start]), out.Length, literals,
        distances), r, reader, out)
    ensures out[..] == Front(CodedWrites(BytesBits(reader.input), old(reader.Pos()), old(out[..start]), out.Length,
                                         literals, distances), old(out[..]))
  {
    hide BytesBits, reader.Holds, Decode, Reference, CopyBack, Front;
    FrontHere(out[..], start);
    assert out[..][..start] == out[..start];
    ghost var b := BytesBits(reader.input);
    ghost var expected := CodedBlock(b, reader.Pos(), out[..start], out.Length, literals, distances);
    ghost var writes := CodedWrites(b, reader.Pos(), out[..start], out.Length, literals, distances);
    var written: nat := start;
    while true
      invariant reader.Valid() && reader.Pos() <= |b| && written <= out.Length
      invariant CodedBlock(b, reader.Pos(), out[..written], out.Length, literals, distances) == expected
      invariant CodedWrites(b, reader.Pos(), out[..written], out.Length, literals, distances) == writes
      invariant out[..] == Front(out[..written], old(out[..]))
      decreases |b| - reader.Pos()
    {
      ghost var done := out[..written];
      var symbol :- DecodeSymbol(literals, reader);
      if symbol == END_OF_BLOCK {
        return Ok(written);
      }
      if symbol < END_OF_BLOCK {
        if written >= out.Length {
          return Err(Output);
        }
        FrontStep(done, symbol, old(out[..]));
        out[written] := symbol;
        assert out[..written + 1] == out[..][..written + 1];
        written := written + 1;
        continue;
      }
      var back :- ReadReference(reader, symbol, distances);
      if written < back.distance {
        return Err(Input);
      }
      var copied := Copy(out, written, back.distance, back.length);
      FrontThen(done, CopyBack(done, back.distance, if copied.Ok? then back.length else out.Length - written),
          old(out[..]));
      if copied.Err? {
        return Err(Output);
      }
      written := written + back.length;
    }
  }

  /** The length and the distance a length code starts. */
  method ReadReference(reader: Reader, symbol: nat, distances: Tree) returns (r: Result<Back, Error>)
    requires reader.Valid() && WellFormed(distances) && symbol > END_OF_BLOCK
    modifies reader
    ensures var spec := Reference(BytesBits(reader.input), old(reader.Pos()), symbol, distances);
      if spec.Ok? then r == Ok(spec.value.item) && reader.Valid() && reader.Pos() == spec.value.end
      else r == Err(Input)
  {
    hide BytesBits, reader.Holds, Decode, Find, FromBits, LengthOf, DistanceOf;
    if symbol < FIRST_LENGTH {
      return Err(Input);
    }
    var entry := LengthOf(symbol);
    if entry.None? {
      return Err(Input);
    }
    EntriesAreSmall(symbol);
    var extra :- reader.Bits(entry.value.extra);
    var code :- DecodeSymbol(distances, reader);
    var far := DistanceOf(code);
    if far.None? {
      return Err(Input);
    }
    EntriesAreSmall(code);
    var more :- reader.Bits(far.value.extra);
    return Ok(Back(entry.value.base + extra, far.value.base + more));
  }

  lemma EntriesAreSmall(code: nat)
    ensures LengthOf(code).Some? ==> LengthOf(code).value.extra <= 13
    ensures DistanceOf(code).Some? ==> DistanceOf(code).value.extra <= 13
  {
    hide Find;
    TablesAreLadders();
    FindSound(LENGTHS, code);
    FindSound(DISTANCE_CODES, code);
    if LengthOf(code).Some? {
      var i :| 0 <= i < |LENGTHS| && LENGTHS[i] == LengthOf(code).value;
      assert Rung(LENGTHS, FIRST_LENGTH, i);
    }
    if DistanceOf(code).Some? {
      var i :| 0 <= i < |DISTANCE_CODES| && DISTANCE_CODES[i] == DistanceOf(code).value;
      assert Rung(DISTANCE_CODES, 0, i);
    }
  }

  /** `CopyBack`, on the buffer, as far as there is room. Only bytes in front of the one written are read, so
      the old content past `start` has no part in it. */
  method Copy(out: array<Byte>, start: nat, distance: nat, length: nat) returns (r: Result<(), Error>)
    requires 1 <= distance <= start <= out.Length
    modifies out
    ensures r.Ok? <==> start + length <= out.Length
    ensures r.Ok? ==> out[..start + length] == CopyBack(old(out[..start]), distance, length)
    ensures out[..] == Front(CopyBack(old(out[..start]), distance, if r.Ok? then length else out.Length - start),
                             old(out[..]))
  {
    hide Front, CopyBack;
    FrontHere(out[..], start);
    assert out[..][..start] == out[..start];
    ghost var fits := if start + length <= out.Length then length else out.Length - start;
    ghost var whole := CopyBack(out[..start], distance, fits);
    ghost var done := out[..start];
    var from, written := start - distance, start;
    for step := 0 to length
      invariant written == start + step == |done| && step <= fits && from == written - distance
      invariant CopyBack(done, distance, fits - step) == whole
      invariant out[..written] == done && out[..] == Front(done, old(out[..]))
    {
      CopyBackStep(done, distance, fits - step);
      var byte := out[from];
      assert byte == done[|done| - distance];
      if written >= out.Length {
        return Err(Output);
      }
      FrontStep(done, byte, old(out[..]));
      out[written] := byte;
      done := done + [byte];
      assert out[..written + 1] == out[..][..written + 1];
      from := from + 1;
      written := written + 1;
    }
    CopyBackStep(done, distance, 0);
    return Ok(());
  }

  lemma CopyBackStep(out: seq<Byte>, distance: nat, n: nat)
    requires 1 <= distance <= |out|
    ensures CopyBack(out, distance, n)
            == if n == 0 then out else CopyBack(out + [out[|out| - distance]], distance, n - 1)
  {
  }

  /** `CodeLengths`, from no length on. */
  method ReadCodeLengths(reader: Reader, count: nat) returns (r: Result<seq<nat>, Error>)
    requires reader.Valid() && count <= CODE_LENGTHS
    modifies reader
    ensures var spec := CodeLengths(BytesBits(reader.input), old(reader.Pos()), 0, count, Run(0, CODE_LENGTHS));
      if spec.Ok? then r == Ok(spec.value.item) && reader.Valid() && reader.Pos() == spec.value.end
      else r == Err(Input)
  {
    hide BytesBits, reader.Holds, Place, FromBits;
    ghost var b := BytesBits(reader.input);
    ghost var expected := CodeLengths(b, reader.Pos(), 0, count, Run(0, CODE_LENGTHS));
    var lengths := Run(0, CODE_LENGTHS);
    for i := 0 to count
      invariant reader.Valid() && |lengths| == CODE_LENGTHS
      invariant CodeLengths(b, reader.Pos(), i, count, lengths) == expected
    {
      var length :- reader.Bits(3);
      lengths := lengths[Place(i) := length];
    }
    return Ok(lengths);
  }

  /** `Repeated`, behind the lengths before `at`. */
  method ReadRepeat(reader: Reader, symbol: nat, lengths: array<nat>, at: nat) returns (r: Result<Times, Error>)
    requires reader.Valid() && at <= lengths.Length
    modifies reader
    ensures var spec := Repeated(BytesBits(reader.input), old(reader.Pos()), symbol, lengths[..at]);
      if spec.Ok? then r == Ok(spec.value.item) && reader.Valid() && reader.Pos() == spec.value.end
      else r == Err(Input)
  {
    hide BytesBits, reader.Holds, FromBits;
    if symbol <= 15 {
      return Ok(Times(symbol, 1));
    } else if symbol == 16 {
      if at == 0 {
        return Err(Input);
      }
      var previous := lengths[at - 1];
      var more :- reader.Bits(2);
      return Ok(Times(previous, 3 + more));
    } else if symbol == 17 {
      var more :- reader.Bits(3);
      return Ok(Times(0, 3 + more));
    } else if symbol == 18 {
      var more :- reader.Bits(7);
      return Ok(Times(0, 11 + more));
    }
    return Err(Input);
  }

  /** Writes `value` `times` times from `at` on. */
  method Fill(lengths: array<nat>, at: nat, value: nat, times: nat) returns (r: Result<nat, Error>)
    requires at <= lengths.Length
    modifies lengths
    ensures r.Ok? <==> at + times <= lengths.Length
    ensures r.Ok? ==> r.value == at + times && lengths[..at + times] == old(lengths[..at]) + Run(value, times)
    ensures r.Err? ==> r == Err(Input)
  {
    ghost var done := lengths[..at];
    for step := 0 to times
      invariant at + step <= lengths.Length && lengths[..at + step] == done + Run(value, step)
    {
      if at + step >= lengths.Length {
        return Err(Input);
      }
      lengths[at + step] := value;
      assert lengths[..at + step + 1] == lengths[..at + step] + [value];
      assert Run(value, step + 1) == Run(value, step) + [value];
    }
    return Ok(at + times);
  }

  /** `LengthRuns` of `total` lengths; nothing in it depends on where the literals end. */
  method ReadLengths(reader: Reader, t: Tree, total: nat, lengths: array<nat>) returns (r: Result<(), Error>)
    requires reader.Valid() && WellFormed(t) && total <= lengths.Length
    modifies reader, lengths
    ensures var spec := LengthRuns(BytesBits(reader.input), old(reader.Pos()), t, total, []);
      if spec.Ok?
      then r.Ok? && lengths[..total] == spec.value.item && reader.Valid() && reader.Pos() == spec.value.end
      else r == Err(Input)
  {
    hide BytesBits, reader.Holds, Decode, Repeated, Run;
    ghost var b := BytesBits(reader.input);
    ghost var expected := LengthRuns(b, reader.Pos(), t, total, []);
    var at := 0;
    assert lengths[..0] == [];
    while at < total
      invariant reader.Valid() && at <= lengths.Length
      invariant if at <= total
        then LengthRuns(b, reader.Pos(), t, total, lengths[..at]) == expected
        else expected == Err(Input)
      decreases total - at
    {
      var symbol :- DecodeSymbol(t, reader);
      var run :- ReadRepeat(reader, symbol, lengths, at);
      at :- Fill(lengths, at, run.length, run.times);
    }
    if at != total {
      return Err(Input);
    }
    return Ok(());
  }

  /** The code tables after the counts that start them. */
  method ReadTablesFrom(reader: Reader, split: nat, total: nat, codes: nat) returns (r: Result<Trees, Error>)
    requires reader.Valid() && 1 <= codes <= CODE_LENGTHS && split <= LITERALS && split <= total <= split + DISTANCES
    modifies reader
    ensures var spec := TablesFrom(BytesBits(reader.input), old(reader.Pos()), split, total, codes);
      if spec.Ok? then r == Ok(spec.value.item) && reader.Valid() && reader.Pos() == spec.value.end
      else r == Err(Input)
  {
    hide BytesBits, reader.Holds, CodeLengths, LengthRuns, Accepts, TreeOf, Run;
    var codeLengths :- ReadCodeLengths(reader, codes);
    var tree :- Build(codeLengths, CODE_LENGTHS, false);
    var lengths := new nat[LITERALS + DISTANCES](_ => 0);
    var read :- ReadLengths(reader, tree, total, lengths);
    ghost var all := lengths[..total];
    assert lengths[..split] == all[..split] && lengths[split..total] == all[split..];
    var first :- Build(lengths[..split], LITERALS, false);
    var second :- Build(lengths[split..total], DISTANCES, true);
    return Ok(Trees(first, second));
  }

  /** `Tables`, at the place of the reader. */
  method ReadTables(reader: Reader) returns (r: Result<Trees, Error>)
    requires reader.Valid()
    modifies reader
    ensures var spec := Tables(BytesBits(reader.input), old(reader.Pos()));
      if spec.Ok? then r == Ok(spec.value.item) && reader.Valid() && reader.Pos() == spec.value.end
      else r == Err(Input)
  {
    hide BytesBits, reader.Holds, TablesFrom, FromBits;
    Powers();
    var literals :- reader.Bits(5);
    var distances :- reader.Bits(5);
    var codes :- reader.Bits(4);
    var split := literals + 257;
    r := ReadTablesFrom(reader, split, split + distances + 1, codes + 4);
  }

  /** Writes into `out` what a stream stands for, and answers how many bytes that is. Both the answer and what is
      then in the buffer, of a refused stream too, depend on the stream, on the length of the buffer, and past what
      was written on nothing but what the buffer held. */
  method Inflate(input: seq<Byte>, out: array<Byte>) returns (r: Result<nat, Error>)
    modifies out
    ensures var spec := Inflated(input, out.Length);
      if spec.Ok? then r == Ok(|spec.value|) && Writes(input, out.Length) == spec.value
      else r == Err(spec.error)
    ensures out[..] == Front(Writes(input, out.Length), old(out[..]))
  {
    hide BytesBits, BlockFrom, BlockWrites, FixedTrees, Front, InflateFrom, WritesFrom;
    var reader := new Reader(input);
    hide reader.Holds, FromBits;
    ghost var b := BytesBits(input);
    ghost var expected, writes := InflateFrom(b, 0, [], out.Length), WritesFrom(b, 0, [], out.Length);
    var written: nat := 0;
    var fixed: Option<Trees> := None;
    FrontHere(out[..], 0);
    assert out[..0] == out[..][..0] == [];
    while true
      invariant reader.Valid() && reader.input == input && reader.Pos() <= |b| && written <= out.Length
      invariant fixed.Some? ==> fixed.value == FixedTrees()
      invariant InflateFrom(b, reader.Pos(), out[..written], out.Length) == expected
      invariant WritesFrom(b, reader.Pos(), out[..written], out.Length) == writes
      invariant out[..] == Front(out[..written], old(out[..]))
      decreases |b| - reader.Pos()
    {
      ghost var done := out[..written];
      NextBlock(b, reader.Pos(), done, out.Length);
      var last :- reader.Bits(1);
      var kind :- reader.Bits(2);
      if kind == 1 && fixed.None? {
        var trees := BuildFixed();
        fixed := Some(trees);
      }
      FrontThen(done, BlockWrites(kind, b, reader.Pos(), done, out.Length), old(out[..]));
      written :- Block(reader, out, written, kind, fixed);
      if last == 1 {
        return Ok(written);
      }
    }
  }

  /** A stream is a header, a block, and the rest unless the header says that there is none. */
  lemma {:induction false} NextBlock(b: seq<bool>, pos: nat, out: seq<Byte>, room: nat)
    requires |out| <= room
    ensures var r, w := InflateFrom(b, pos, out, room), WritesFrom(b, pos, out, room);
      if Field(b, pos, 1).Err? || Field(b, pos + 1, 2).Err? then r == Err(Input) && w == out
      else
        var last, kind := Field(b, pos, 1).value.item, Field(b, pos + 1, 2).value.item;
        var block := BlockFrom(kind, b, pos + 3, out, room);
        if block.Err? then r == Err(block.error) && w == BlockWrites(kind, b, pos + 3, out, room)
        else if last == 1 then r == Ok(block.value.item) && w == block.value.item
        else
          && r == InflateFrom(b, block.value.end, block.value.item, room)
          && w == WritesFrom(b, block.value.end, block.value.item, room)
  {
    hide BlockFrom, BlockWrites, FromBits;
  }

  /** A block behind its header; the fixed trees are there when it needs them. */
  method Block(reader: Reader, out: array<Byte>, written: nat, kind: nat, fixed: Option<Trees>)
    returns (r: Result<nat, Error>)
    requires reader.Valid() && written <= out.Length && kind < 4
    requires (kind == 1 ==> fixed.Some?) && (fixed.Some? ==> fixed.value == FixedTrees())
    modifies reader, out
    ensures Leaves(BlockFrom(kind, BytesBits(reader.input), old(reader.Pos()), old(out[..written]), out.Length),
                   r, reader, out)
    ensures out[..] == Front(BlockWrites(kind, BytesBits(reader.input), old(reader.Pos()), old(out[..written]),
                                         out.Length), old(out[..]))
  {
    hide BytesBits, reader.Holds, StoredBlock, CodedBlock, DynamicBlock, StoredWrites, CodedWrites, DynamicWrites,
      FixedTrees, Front;
    FrontHere(out[..], written);
    assert out[..][..written] == out[..written];
    match kind
    case 0 => r := Stored(reader, out, written);
    case 1 => r := Coded(reader, out, written, fixed.value.literals, fixed.value.distances);
    case 2 => r := Dynamic(reader, out, written);
    case _ => r := Err(Input);
  }

  /** The fixed trees can always be built. */
  method BuildFixed() returns (t: Trees)
    ensures t == FixedTrees()
  {
    hide TreeOf, Kraft, FixedLiteralLengths, FixedDistanceLengths;
    FixedCodesAreComplete();
    var literals := Build(FixedLiteralLengths(), LITERALS, false);
    var distances := Build(FixedDistanceLengths(), DISTANCES, true);
    t := Trees(literals.value, distances.value);
  }

  method Dynamic(reader: Reader, out: array<Byte>, written: nat) returns (r: Result<nat, Error>)
    requires reader.Valid() && written <= out.Length
    modifies reader, out
    ensures Leaves(DynamicBlock(BytesBits(reader.input), old(reader.Pos()), old(out[..written]), out.Length),
                   r, reader, out)
    ensures out[..] == Front(DynamicWrites(BytesBits(reader.input), old(reader.Pos()), old(out[..written]), out.Length),
                             old(out[..]))
  {
    hide BytesBits, reader.Holds, Tables, CodedBlock, CodedWrites, Front;
    FrontHere(out[..], written);
    assert out[..][..written] == out[..written];
    var trees :- ReadTables(reader);
    r := Coded(reader, out, written, trees.literals, trees.distances);
  }
}
