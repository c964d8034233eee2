/** Whatever a decoder accepts is a stream of the format, and it answers what that stands for. */
module InflateSound {
  import opened Words
  import opened BitStrings
  import opened Wrappers
  import opened DeflateErrors
  import opened HuffmanCode
  import opened Huffman
  import opened DeflateTables
  import opened InflateSpec
  import opened DeflateFormat
  import opened InflateComplete

  lemma FieldTaken(b: seq<bool>, pos: nat, n: nat)
    requires Field(b, pos, n).Ok?
    ensures At(b, pos, ToBits(Field(b, pos, n).value.item, n))
  {
    FieldWritten(b, pos, Field(b, pos, n).value.item, n);
  }

  lemma SymbolTaken(lengths: seq<nat>, n: nat, b: seq<bool>, pos: nat)
    requires |lengths| <= n && Decode(TreeOf(lengths, n), b, pos).Ok?
    ensures var taken := Decode(TreeOf(lengths, n), b, pos).value;
      Coded(lengths, taken.item) && At(b, pos, SymbolBits(lengths, taken.item))
      && taken.end == pos + |SymbolBits(lengths, taken.item)|
  {
    hide Decode, TreeOf;
    DecodeReads(lengths, n, b, pos);
  }

  lemma ReferenceTaken(b: seq<bool>, pos: nat, symbol: nat, distances: seq<nat>)
    returns (length: Written, distance: Written)
    requires |distances| <= DISTANCES && Reference(b, pos, symbol, TreeOf(distances, DISTANCES)).Ok?
    ensures length.code == symbol && Writable(LENGTHS, length)
    ensures Writable(DISTANCE_CODES, distance) && Coded(distances, distance.code)
    ensures var e := ToBits(length.value, length.extra)
        + (SymbolBits(distances, distance.code) + ToBits(distance.value, distance.extra));
      At(b, pos, e) && Reference(b, pos, symbol, TreeOf(distances, DISTANCES))
        == Ok(Taken(Back(Number(LENGTHS, length), Number(DISTANCE_CODES, distance)), pos + |e|))
  {
    hide Decode, TreeOf, Find, Field, At, ToBits, SymbolBits, Coded;
    var t := TreeOf(distances, DISTANCES);
    var entry := LengthOf(symbol).value;
    var extra := Field(b, pos, entry.extra).value;
    var code := Decode(t, b, extra.end).value;
    var far := DistanceOf(code.item).value;
    var more := Field(b, code.end, far.extra).value;
    length := Written(symbol, entry.extra, extra.item);
    distance := Written(code.item, far.extra, more.item);
    FieldTaken(b, pos, entry.extra);
    SymbolTaken(distances, DISTANCES, b, extra.end);
    FieldTaken(b, code.end, far.extra);
    var x, y, z := ToBits(length.value, length.extra), SymbolBits(distances, distance.code),
      ToBits(distance.value, distance.extra);
    AtSplit(b, extra.end, y, z);
    AtSplit(b, pos, x, y + z);
  }

  /** One symbol of a coded block that a decoder has taken. */
  lemma StepTaken(literals: seq<nat>, distances: seq<nat>, b: seq<bool>, pos: nat, out: seq<Byte>, room: nat)
    returns (s: Symbol)
    requires |literals| <= LITERALS && |distances| <= DISTANCES
    requires CodedBlock(b, pos, out, room, TreeOf(literals, LITERALS), TreeOf(distances, DISTANCES)).Ok?
    requires Decode(TreeOf(literals, LITERALS), b, pos).Ok?
    requires Decode(TreeOf(literals, LITERALS), b, pos).value.item != END_OF_BLOCK
    ensures Encodable(literals, distances, s)
    ensures s.Match? ==> Writable(LENGTHS, s.length) && Writable(DISTANCE_CODES, s.distance)
    ensures SymbolMeaning(s, out).Some?
    ensures At(b, pos, SymbolEncoding(literals, distances, s))
    ensures |SymbolEncoding(literals, distances, s)| > 0
    ensures var l, d := TreeOf(literals, LITERALS), TreeOf(distances, DISTANCES);
      CodedBlock(b, pos, out, room, l, d)
      == CodedBlock(b, pos + |SymbolEncoding(literals, distances, s)|, SymbolMeaning(s, out).value, room, l, d)
  {
    hide Decode, TreeOf, Find, Reference, CopyBack, SymbolBits, ToBits, Writable, At, Coded;
    SymbolTaken(literals, LITERALS, b, pos);
    var taken := Decode(TreeOf(literals, LITERALS), b, pos).value;
    if taken.item < END_OF_BLOCK {
      s := Literal(taken.item);
    } else {
      var length, distance := ReferenceTaken(b, taken.end, taken.item, distances);
      s := Match(length, distance);
      AtSplit(b, pos, SymbolBits(literals, length.code), ToBits(length.value, length.extra)
        + (SymbolBits(distances, distance.code) + ToBits(distance.value, distance.extra)));
    }
  }

  lemma EndTaken(literals: seq<nat>, distances: Tree, b: seq<bool>, pos: nat, out: seq<Byte>, room: nat)
    requires |literals| <= LITERALS && WellFormed(distances)
    requires CodedBlock(b, pos, out, room, TreeOf(literals, LITERALS), distances).Ok?
    ensures Decode(TreeOf(literals, LITERALS), b, pos).Ok?
    ensures Decode(TreeOf(literals, LITERALS), b, pos).value.item == END_OF_BLOCK ==>
      Coded(literals, END_OF_BLOCK) && At(b, pos, SymbolBits(literals, END_OF_BLOCK)) &&
      CodedBlock(b, pos, out, room, TreeOf(literals, LITERALS), distances)
      == Ok(Taken(out, pos + |SymbolBits(literals, END_OF_BLOCK)|))
  {
    hide Decode, TreeOf, At, SymbolBits;
    SymbolTaken(literals, LITERALS, b, pos);
  }

  lemma {:induction false} BodyTaken(literals: seq<nat>, distances: seq<nat>, b: seq<bool>, pos: nat, out: seq<Byte>,
      room: nat)
    returns (symbols: seq<Symbol>)
    requires |literals| <= LITERALS && |distances| <= DISTANCES
    requires CodedBlock(b, pos, out, room, TreeOf(literals, LITERALS), TreeOf(distances, DISTANCES)).Ok?
    ensures BodyEncodable(literals, distances, symbols) && AllWritable(symbols)
    ensures At(b, pos, BodyEncoding(literals, distances, symbols))
    ensures BodyMeaning(symbols, out).Some? &&
      CodedBlock(b, pos, out, room, TreeOf(literals, LITERALS), TreeOf(distances, DISTANCES))
      == Ok(Taken(BodyMeaning(symbols, out).value, pos + |BodyEncoding(literals, distances, symbols)|))
    decreases |b| - pos
  {
    hide CodedBlock, Decode, TreeOf, SymbolEncoding, SymbolMeaning, At, Encodable, SymbolBits, Coded;
    var l, d := TreeOf(literals, LITERALS), TreeOf(distances, DISTANCES);
    EndTaken(literals, d, b, pos, out, room);
    if Decode(l, b, pos).value.item == END_OF_BLOCK {
      symbols := [];
    } else {
      var s := StepTaken(literals, distances, b, pos, out, room);
      var e := SymbolEncoding(literals, distances, s);
      AtFits(b, pos, e);
      var rest := BodyTaken(literals, distances, b, pos + |e|, SymbolMeaning(s, out).value, room);
      symbols := [s] + rest;
      assert symbols[1..] == rest;
      BodyRest(literals, distances, symbols);
      AtSplit(b, pos, e, BodyEncoding(literals, distances, rest));
    }
  }

  lemma StoredTaken(b: seq<bool>, pos: nat, out: seq<Byte>, room: nat)
    returns (padding: seq<bool>, bytes: seq<Byte>)
    requires StoredBlock(b, pos, out, room).Ok?
    ensures |padding| == Aligned(pos) - pos && |bytes| <= 0xFFFF
    ensures At(b, pos, StoredEncoding(padding, bytes))
    ensures StoredBlock(b, pos, out, room)
      == Ok(Taken(out + bytes, pos + |StoredEncoding(padding, bytes)|))
  {
    hide At, Field, BytesAt, BytesBits, ToBits, FromBits;
    var start := Aligned(pos);
    var length := Field(b, start, 16).value;
    var complement := Field(b, length.end, 16).value;
    padding := b[pos..start];
    bytes := BytesAt(b, complement.end, length.item);
    FieldTaken(b, start, 16);
    FieldTaken(b, length.end, 16);
    BytesWritten(b, complement.end, bytes);
    var x, y, z := ToBits(|bytes|, 16), ToBits(0xFFFF - |bytes|, 16), BytesBits(bytes);
    AtSplit(b, start + 16, y, z);
    AtSplit(b, start, x, y + z);
    Stands(b, pos, start);
    AtSplit(b, pos, padding, x + (y + z));
  }

  lemma Stands(b: seq<bool>, i: nat, j: nat)
    requires i <= j <= |b|
    ensures At(b, i, b[i..j])
  {
  }

  lemma {:induction false} OrderTaken(b: seq<bool>, pos: nat, i: nat, count: nat, lengths: seq<nat>)
    returns (order: seq<nat>)
    requires i <= count <= CODE_LENGTHS && |lengths| == CODE_LENGTHS && pos <= |b|
    requires CodeLengths(b, pos, i, count, lengths).Ok?
    ensures |order| == count - i && forall k | 0 <= k < |order| :: order[k] < Pow2(3)
    ensures At(b, pos, OrderEncoding(order))
    ensures CodeLengths(b, pos, i, count, lengths)
      == Ok(Taken(Ordered(order, i, lengths), pos + 3 * |order|))
    decreases count - i
  {
    hide At, Field, ToBits, Place;
    if i == count {
      order := [];
      Stands(b, pos, pos);
      assert b[pos..pos] == OrderEncoding([]);
    } else {
      var length := Field(b, pos, 3).value;
      FieldTaken(b, pos, 3);
      var rest := OrderTaken(b, pos + 3, i + 1, count, lengths[Place(i) := length.item]);
      order := [length.item] + rest;
      assert order[1..] == rest;
      AtSplit(b, pos, ToBits(length.item, 3), OrderEncoding(rest));
    }
  }

  lemma RunTaken(b: seq<bool>, pos: nat, symbol: nat, done: seq<nat>, code: seq<nat>) returns (run: LengthRun)
    requires Coded(code, symbol) && Repeated(b, pos, symbol, done).Ok? && pos <= |b|
    ensures RunEncodable(code, run) && RunSymbol(run) == symbol && RunMeaning(run, done).Some?
    ensures At(b, pos, RunExtra(run))
    ensures Repeated(b, pos, symbol, done)
      == Ok(Taken(RunMeaning(run, done).value, pos + |RunExtra(run)|))
  {
    hide At, Field, ToBits;
    if symbol <= 15 {
      run := Plain(symbol);
      Stands(b, pos, pos);
      assert b[pos..pos] == [];
    } else if symbol == 16 {
      FieldTaken(b, pos, 2);
      run := Previous(Field(b, pos, 2).value.item);
    } else if symbol == 17 {
      FieldTaken(b, pos, 3);
      run := Zeros(Field(b, pos, 3).value.item);
    } else {
      FieldTaken(b, pos, 7);
      run := ManyZeros(Field(b, pos, 7).value.item);
    }
  }

  lemma {:induction false} RunsTaken(b: seq<bool>, pos: nat, code: seq<nat>, total: nat, done: seq<nat>)
    returns (runs: seq<LengthRun>)
    requires |code| == CODE_LENGTHS && |done| <= total && pos <= |b|
    requires LengthRuns(b, pos, TreeOf(code, CODE_LENGTHS), total, done).Ok?
    ensures RunsEncodable(code, runs) && At(b, pos, RunsEncoding(code, runs))
    ensures RunsMeaning(runs, done).Some? && |RunsMeaning(runs, done).value| == total
    ensures LengthRuns(b, pos, TreeOf(code, CODE_LENGTHS), total, done)
      == Ok(Taken(RunsMeaning(runs, done).value, pos + |RunsEncoding(code, runs)|))
    decreases total - |done|
  {
    hide At, Decode, TreeOf, SymbolBits, RunExtra, RunMeaning, Repeated, RunEncodable, Coded;
    if |done| == total {
      runs := [];
      Stands(b, pos, pos);
      assert b[pos..pos] == RunsEncoding(code, []);
    } else {
      var t := TreeOf(code, CODE_LENGTHS);
      var symbol := Decode(t, b, pos).value;
      SymbolTaken(code, CODE_LENGTHS, b, pos);
      var run := RunTaken(b, symbol.end, symbol.item, done, code);
      var times := RunMeaning(run, done).value;
      var end := symbol.end + |RunExtra(run)|;
      AtFits(b, symbol.end, RunExtra(run));
      var rest := RunsTaken(b, end, code, total, done + Run(times.length, times.times));
      runs := [run] + rest;
      assert runs[1..] == rest;
      AtSplit(b, symbol.end, RunExtra(run), RunsEncoding(code, rest));
      AtSplit(b, pos, SymbolBits(code, symbol.item), RunExtra(run) + RunsEncoding(code, rest));
      RunCoded(code, run);
    }
  }

  lemma RunCoded(code: seq<nat>, run: LengthRun)
    requires RunEncodable(code, run)
    ensures Coded(code, RunSymbol(run))
  {
  }

  lemma HeaderTaken(b: seq<bool>, pos: nat) returns (h: Header)
    requires Tables(b, pos).Ok?
    ensures ValidHeader(h) && At(b, pos, HeaderEncoding(h))
    ensures Tables(b, pos)
      == Ok(Taken(Trees(TreeOf(LiteralLengths(h), LITERALS), TreeOf(DistanceLengths(h), DISTANCES)),
                  pos + |HeaderEncoding(h)|))
  {
    hide At, Field, ToBits, TreeOf, Accepts, CodeLengths, LengthRuns, RunsEncodable, RunsEncoding,
      OrderEncoding, Ordered, RunsMeaning;
    Powers();
    var hlit := Field(b, pos, 5).value;
    var hdist := Field(b, hlit.end, 5).value;
    var hclen := Field(b, hdist.end, 4).value;
    FieldTaken(b, pos, 5);
    FieldTaken(b, pos + 5, 5);
    FieldTaken(b, pos + 10, 4);
    var order := OrderTaken(b, pos + 14, 0, hclen.item + 4, Run(0, CODE_LENGTHS));
    var code := Ordered(order, 0, Run(0, CODE_LENGTHS));
    var o := OrderEncoding(order);
    AtFits(b, pos + 14, o);
    var literals := hlit.item + 257;
    var runs := RunsTaken(b, pos + 14 + |o|, code, literals + hdist.item + 1, []);
    h := Header(order, runs, literals);
    var r := RunsEncoding(code, runs);
    AtSplit(b, pos + 14, o, r);
    AtSplit(b, pos + 10, ToBits(hclen.item, 4), o + r);
    AtSplit(b, pos + 5, ToBits(hdist.item, 5), ToBits(hclen.item, 4) + (o + r));
    AtSplit(b, pos, ToBits(hlit.item, 5), ToBits(hdist.item, 5) + (ToBits(hclen.item, 4) + (o + r)));
  }

  lemma DynamicTaken(b: seq<bool>, pos: nat, out: seq<Byte>, room: nat) returns (block: Block)
    requires DynamicBlock(b, pos, out, room).Ok?
    ensures Kind(block) == 2 && BlockEncodable(block, pos) && At(b, pos, BlockEncoding(block, pos))
    ensures AllWritable(block.symbols) && BlockMeaning(block, out).Some?
    ensures DynamicBlock(b, pos, out, room)
      == Ok(Taken(BlockMeaning(block, out).value, pos + |BlockEncoding(block, pos)|))
  {
    hide At, BodyEncodable, ValidHeader, BodyMeaning, BodyEncoding, HeaderEncoding, HeaderLengths,
      LiteralLengths, DistanceLengths, CodedBlock, Tables, TreeOf, AllWritable, Accepts;
    var h := HeaderTaken(b, pos);
    HeaderSplits(h);
    var e := HeaderEncoding(h);
    var literals, distances := LiteralLengths(h), DistanceLengths(h);
    var symbols := BodyTaken(literals, distances, b, pos + |e|, out, room);
    AtSplit(b, pos, e, BodyEncoding(literals, distances, symbols));
    block := Dynamic(h, symbols);
  }

  lemma BlockTaken(b: seq<bool>, pos: nat, kind: nat, out: seq<Byte>, room: nat) returns (block: Block)
    requires BlockFrom(kind, b, pos, out, room).Ok?
    ensures Kind(block) == kind && BlockEncodable(block, pos) && At(b, pos, BlockEncoding(block, pos))
    ensures !block.Stored? ==> AllWritable(block.symbols)
    ensures BlockMeaning(block, out).Some?
    ensures BlockFrom(kind, b, pos, out, room)
      == Ok(Taken(BlockMeaning(block, out).value, pos + |BlockEncoding(block, pos)|))
  {
    hide At, BodyEncodable, ValidHeader, BodyMeaning, BodyEncoding, HeaderEncoding, StoredEncoding,
      CodedBlock, StoredBlock, DynamicBlock, TreeOf, FixedLiteralLengths, FixedDistanceLengths,
      AllWritable;
    if kind == 0 {
      var padding, bytes := StoredTaken(b, pos, out, room);
      block := Stored(padding, bytes);
    } else if kind == 1 {
      var symbols := BodyTaken(FixedLiteralLengths(), FixedDistanceLengths(), b, pos, out, room);
      block := Fixed(symbols);
    } else {
      block := DynamicTaken(b, pos, out, room);
    }
  }

  /** Every stream a decoder accepts is one of the format, and means what it answers. */
  lemma {:induction false} StreamTaken(b: seq<bool>, pos: nat, out: seq<Byte>, room: nat) returns (blocks: seq<Block>)
    requires InflateFrom(b, pos, out, room).Ok?
    ensures Encodes(blocks, pos) && At(b, pos, StreamEncoding(blocks, pos))
    ensures forall i | 0 <= i < |blocks| && !blocks[i].Stored? :: AllWritable(blocks[i].symbols)
    ensures StreamMeaning(blocks, out) == Some(InflateFrom(b, pos, out, room).value)
    decreases |b| - pos
  {
    hide At, Field, ToBits, BlockEncodable, BlockEncoding, BlockMeaning, BlockFrom, AllWritable;
    Powers();
    var last := Field(b, pos, 1).value;
    var kind := Field(b, last.end, 2).value;
    FieldTaken(b, pos, 1);
    FieldTaken(b, pos + 1, 2);
    assert BlockFrom(kind.item, b, pos + 3, out, room).Ok?;
    var block := BlockTaken(b, pos + 3, kind.item, out, room);
    var e := BlockEncoding(block, pos + 3);
    AtFits(b, pos + 3, e);
    var rest: seq<bool> := [];
    if last.item == 1 {
      blocks := [block];
      Stands(b, pos + 3 + |e|, pos + 3 + |e|);
      assert b[pos + 3 + |e|..pos + 3 + |e|] == rest;
    } else {
      var more := StreamTaken(b, pos + 3 + |e|, BlockMeaning(block, out).value, room);
      blocks := [block] + more;
      assert blocks[1..] == more;
      rest := StreamEncoding(more, pos + 3 + |e|);
    }
    AtSplit(b, pos + 3, e, rest);
    AtSplit(b, pos + 1, ToBits(kind.item, 2), e + rest);
    AtSplit(b, pos, ToBits(last.item, 1), ToBits(kind.item, 2) + (e + rest));
  }

  /** The bytes hold a stream of the format: the blocks are written from the first bit on, and
      they stand for `whole`. */
  ghost predicate StreamOf(input: seq<Byte>, blocks: seq<Block>, whole: seq<Byte>) {
    && Encodes(blocks, 0)
    && At(BytesBits(input), 0, StreamEncoding(blocks, 0))
    && (StreamWritable(blocks, 0); StreamMeaning(blocks, []) == Some(whole))
  }

  /** The decoder answers exactly what the format says: bytes stand for `whole`, and there is room
      for it, if and only if that is the answer. */
  lemma InflatesExactly(input: seq<Byte>, room: nat, whole: seq<Byte>)
    ensures Inflated(input, room) == Ok(whole) <==>
      |whole| <= room && exists blocks :: StreamOf(input, blocks, whole)
  {
    hide InflateFrom, StreamMeaning, StreamEncoding, Encodes, At, BytesBits, AllWritable;
    if Inflated(input, room) == Ok(whole) {
      var blocks := StreamTaken(BytesBits(input), 0, [], room);
      assert StreamOf(input, blocks, whole);
    }
    if |whole| <= room && exists blocks :: StreamOf(input, blocks, whole) {
      var blocks :| StreamOf(input, blocks, whole);
      StreamWritable(blocks, 0);
      StreamWritten(blocks, BytesBits(input), 0, [], room);
    }
  }

  /** A stream that stands for more than there is room for is refused for that reason. */
  lemma InflateLacksRoom(input: seq<Byte>, blocks: seq<Block>, whole: seq<Byte>, room: nat)
    requires StreamOf(input, blocks, whole) && |whole| > room
    ensures Inflated(input, room) == Err(Output)
  {
    hide InflateFrom, StreamMeaning, StreamEncoding, Encodes, At, BytesBits, AllWritable;
    StreamWritable(blocks, 0);
    StreamWritten(blocks, BytesBits(input), 0, [], room);
  }
}
