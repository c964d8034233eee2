/** Reading is the inverse of writing, part by part and then for whole streams. */
module InflateComplete {
  import opened Words
  import opened BitStrings
  import opened Wrappers
  import opened DeflateErrors
  import opened HuffmanCode
  import opened Huffman
  import opened DeflateTables
  import opened InflateSpec
  import opened DeflateFormat

  /** The bits `e` stand at `pos`. */
  ghost predicate At(b: seq<bool>, pos: nat, e: seq<bool>) {
    pos + |e| <= |b| && b[pos..pos + |e|] == e
  }

  lemma AtSplit(b: seq<bool>, pos: nat, x: seq<bool>, y: seq<bool>)
    ensures At(b, pos, x + y) <==> At(b, pos, x) && At(b, pos + |x|, y)
  {
    if pos + |x| + |y| <= |b| {
      var w := b[pos..pos + |x| + |y|];
      assert w == b[pos..pos + |x|] + b[pos + |x|..pos + |x| + |y|];
      assert (x + y)[..|x|] == x && (x + y)[|x|..] == y;
      assert w[..|x|] == b[pos..pos + |x|] && w[|x|..] == b[pos + |x|..pos + |x| + |y|];
    }
  }

  lemma FieldWritten(b: seq<bool>, pos: nat, v: nat, n: nat)
    requires v < Pow2(n)
    ensures At(b, pos, ToBits(v, n)) <==> Field(b, pos, n) == Ok(Taken(v, pos + n))
  {
    ToFromBits(v, n);
    if pos + n <= |b| {
      FromToBits(b[pos..pos + n]);
    }
  }

  /** The lengths a decoder accepts have a Kraft sum of at most one. */
  lemma AcceptsFits(lengths: seq<nat>, lone: bool)
    requires Accepts(lengths, lone)
    ensures Kraft(lengths) <= Pow2(MAX_BITS)
  {
    KraftIsUsed(lengths);
    TotalZero(lengths);
    LoneCode(lengths);
    FewUsed(CountsOf(lengths), MAX_BITS);
  }

  lemma SymbolWritten(lengths: seq<nat>, lone: bool, n: nat, s: nat, b: seq<bool>, pos: nat)
    requires |lengths| <= n && Accepts(lengths, lone) && Coded(lengths, s)
    requires At(b, pos, SymbolBits(lengths, s))
    ensures Decode(TreeOf(lengths, n), b, pos) == Ok(Taken(s, pos + |SymbolBits(lengths, s)|))
  {
    AcceptsFits(lengths, lone);
    DecodeWritten(lengths, n, s, b, pos);
  }

  /** A reference whose parts are read. */
  lemma {:induction false} ReferenceIs(b: seq<bool>, pos: nat, symbol: nat, t: Tree, extra: Taken<nat>,
      code: Taken<nat>, more: Taken<nat>)
    requires WellFormed(t) && LengthOf(symbol).Some? && DistanceOf(code.item).Some?
    requires Field(b, pos, LengthOf(symbol).value.extra) == Ok(extra) && Decode(t, b, extra.end) == Ok(code)
    requires Field(b, code.end, DistanceOf(code.item).value.extra) == Ok(more)
    ensures Reference(b, pos, symbol, t)
      == Ok(Taken(Back(LengthOf(symbol).value.base + extra.item, DistanceOf(code.item).value.base + more.item),
                  more.end))
  {
    hide Decode, Field, LengthOf, DistanceOf;
  }

  lemma {:induction false} ReferenceWritten(b: seq<bool>, pos: nat, length: Written, distance: Written,
      distances: seq<nat>)
    requires |distances| <= DISTANCES && Accepts(distances, true)
    requires Writable(LENGTHS, length) && Writable(DISTANCE_CODES, distance)
    requires Coded(distances, distance.code)
    requires At(b, pos, ToBits(length.value, length.extra)
        + (SymbolBits(distances, distance.code) + ToBits(distance.value, distance.extra)))
    ensures Reference(b, pos, length.code, TreeOf(distances, DISTANCES))
      == Ok(Taken(Back(Number(LENGTHS, length), Number(DISTANCE_CODES, distance)),
                  pos + length.extra + |SymbolBits(distances, distance.code)| + distance.extra))
  {
    hide Decode, TreeOf, Find, Field, At, ToBits, SymbolBits, Accepts, Coded, Reference, Pow2;
    var x, y, z := ToBits(length.value, length.extra), SymbolBits(distances, distance.code),
      ToBits(distance.value, distance.extra);
    AtSplit(b, pos, x, y + z);
    AtSplit(b, pos + |x|, y, z);
    FieldWritten(b, pos, length.value, length.extra);
    SymbolWritten(distances, true, DISTANCES, distance.code, b, pos + |x|);
    FieldWritten(b, pos + |x| + |y|, distance.value, distance.extra);
    ReferenceIs(b, pos, length.code, TreeOf(distances, DISTANCES), Taken(length.value, pos + |x|),
      Taken(distance.code, pos + |x| + |y|), Taken(distance.value, pos + |x| + |y| + |z|));
  }

  /** The answer of a decoder that reads a whole part of a stream. */
  function Answer<T>(whole: seq<Byte>, room: nat, ok: T): (r: Result<T, Error>) {
    if |whole| <= room then Ok(ok) else Err(Output)
  }

  lemma BodyRest(literals: seq<nat>, distances: seq<nat>, symbols: seq<Symbol>)
    requires BodyEncodable(literals, distances, symbols)
    ensures AllWritable(symbols)
    ensures symbols != [] ==> BodyEncodable(literals, distances, symbols[1..])
    ensures symbols != [] ==> Encodable(literals, distances, symbols[0])
  {
    forall i | 0 <= i < |symbols| && symbols[i].Match?
      ensures Writable(LENGTHS, symbols[i].length) && Writable(DISTANCE_CODES, symbols[i].distance)
    {
      assert Encodable(literals, distances, symbols[i]);
    }
  }

  /** One symbol of a coded block, read. */
  lemma SymbolRead(literals: seq<nat>, distances: seq<nat>, s: Symbol, b: seq<bool>, pos: nat, out: seq<Byte>,
      room: nat)
    requires |literals| <= LITERALS && Accepts(literals, false)
    requires |distances| <= DISTANCES && Accepts(distances, true)
    requires Encodable(literals, distances, s) && At(b, pos, SymbolEncoding(literals, distances, s))
    requires SymbolMeaning(s, out).Some?
    ensures var l, d, next := TreeOf(literals, LITERALS), TreeOf(distances, DISTANCES), SymbolMeaning(s, out).value;
      CodedBlock(b, pos, out, room, l, d) ==
      if |next| <= room
      then CodedBlock(b, pos + |SymbolEncoding(literals, distances, s)|, next, room, l, d)
      else Err(Output)
  {
    hide Decode, TreeOf, Find, Reference, CopyBack, SymbolBits, ToBits, Accepts, Writable, At;
    match s
    case Literal(byte) =>
      SymbolWritten(literals, false, LITERALS, byte, b, pos);
    case Match(length, distance) =>
      AtSplit(b, pos, SymbolBits(literals, length.code), ToBits(length.value, length.extra)
        + (SymbolBits(distances, distance.code) + ToBits(distance.value, distance.extra)));
      SymbolWritten(literals, false, LITERALS, length.code, b, pos);
      ReferenceWritten(b, pos + |SymbolBits(literals, length.code)|, length, distance, distances);
  }

  /** The end of a coded block, read. */
  lemma EndRead(literals: seq<nat>, distances: Tree, b: seq<bool>, pos: nat, out: seq<Byte>, room: nat)
    requires |literals| <= LITERALS && Accepts(literals, false) && Coded(literals, END_OF_BLOCK)
    requires WellFormed(distances) && At(b, pos, SymbolBits(literals, END_OF_BLOCK))
    ensures CodedBlock(b, pos, out, room, TreeOf(literals, LITERALS), distances)
      == Ok(Taken(out, pos + |SymbolBits(literals, END_OF_BLOCK)|))
  {
    hide Decode, TreeOf, SymbolBits, Accepts, At;
    SymbolWritten(literals, false, LITERALS, END_OF_BLOCK, b, pos);
  }

  /** A coded block reads back as what its symbols stand for. */
  lemma {:induction false} BodyWritten(literals: seq<nat>, distances: seq<nat>, symbols: seq<Symbol>, b: seq<bool>,
      pos: nat, out: seq<Byte>, room: nat)
    requires |literals| <= LITERALS && Accepts(literals, false)
    requires |distances| <= DISTANCES && Accepts(distances, true)
    requires BodyEncodable(literals, distances, symbols) && AllWritable(symbols)
    requires At(b, pos, BodyEncoding(literals, distances, symbols))
    requires BodyMeaning(symbols, out).Some? && |out| <= room
    ensures CodedBlock(b, pos, out, room, TreeOf(literals, LITERALS), TreeOf(distances, DISTANCES))
      == Answer(BodyMeaning(symbols, out).value, room,
           Taken(BodyMeaning(symbols, out).value, pos + |BodyEncoding(literals, distances, symbols)|))
    decreases |symbols|
  {
    hide CodedBlock, TreeOf, SymbolEncoding, SymbolMeaning, Accepts, At, Encodable, SymbolBits, Coded;
    hide AllWritable;
    if symbols == [] {
      EndRead(literals, TreeOf(distances, DISTANCES), b, pos, out, room);
    } else {
      BodyRest(literals, distances, symbols);
      var s, rest := symbols[0], symbols[1..];
      var e, f := SymbolEncoding(literals, distances, s), BodyEncoding(literals, distances, rest);
      AtSplit(b, pos, e, f);
      SymbolRead(literals, distances, s, b, pos, out, room);
      var next := SymbolMeaning(s, out).value;
      if |next| <= room {
        BodyRest(literals, distances, rest);
        BodyWritten(literals, distances, rest, b, pos + |e|, next, room);
      }
    }
  }

  lemma {:induction false} BytesWritten(b: seq<bool>, pos: nat, bytes: seq<Byte>)
    requires pos + 8 * |bytes| <= |b|
    ensures At(b, pos, BytesBits(bytes)) <==> BytesAt(b, pos, |bytes|) == bytes
    decreases |bytes|
  {
    if bytes == [] {
      assert BytesAt(b, pos, 0) == bytes;
    } else {
      var rest := bytes[1..];
      AtSplit(b, pos, ToBits(bytes[0], 8), BytesBits(rest));
      BytesWritten(b, pos + 8, rest);
      Pow2Values();
      FieldWritten(b, pos, bytes[0], 8);
      BytesAtStep(b, pos, |bytes|);
      assert bytes == [bytes[0]] + rest;
    }
  }

  lemma BytesAtStep(b: seq<bool>, pos: nat, n: nat)
    requires 0 < n && pos + 8 * n <= |b|
    ensures FromBits(b[pos..pos + 8]) < 256
    ensures BytesAt(b, pos, n) == [FromBits(b[pos..pos + 8])] + BytesAt(b, pos + 8, n - 1)
  {
    hide FromBits;
    Pow2Values();
    var x, y := BytesAt(b, pos, n), BytesAt(b, pos + 8, n - 1);
    assert |b[pos..pos + 8]| == 8;
    forall i | 0 <= i < |y| ensures x[1..][i] == y[i] {
      assert pos + 8 * (i + 1) == pos + 8 + 8 * i;
    }
    assert x == [x[0]] + x[1..];
  }

  /** A stored block reads back as its bytes. */
  lemma StoredWritten(padding: seq<bool>, bytes: seq<Byte>, b: seq<bool>, pos: nat, out: seq<Byte>, room: nat)
    requires |padding| == Aligned(pos) - pos && |bytes| <= 0xFFFF
    requires At(b, pos, StoredEncoding(padding, bytes)) && |out| <= room
    ensures StoredBlock(b, pos, out, room)
      == Answer(out + bytes, room, Taken(out + bytes, pos + |StoredEncoding(padding, bytes)|))
  {
    hide Field, At, BytesBits, BytesAt, ToBits;
    var start := Aligned(pos);
    var x, y, z := ToBits(|bytes|, 16), ToBits(0xFFFF - |bytes|, 16), BytesBits(bytes);
    AtSplit(b, pos, padding, x + (y + z));
    AtSplit(b, start, x, y + z);
    AtSplit(b, start + 16, y, z);
    SixteenBits();
    FieldWritten(b, start, |bytes|, 16);
    FieldWritten(b, start + 16, 0xFFFF - |bytes|, 16);
    AtFits(b, start + 32, z);
    BytesWritten(b, start + 32, bytes);
  }

  lemma AtFits(b: seq<bool>, pos: nat, e: seq<bool>)
    requires At(b, pos, e)
    ensures pos + |e| <= |b|
  {
  }

  lemma SixteenBits()
    ensures Pow2(16) == 0x1_0000
  {
    Pow2Values();
  }

  /** The code length code reads back in its order. */
  lemma {:induction false} OrderWritten(order: seq<nat>, b: seq<bool>, pos: nat, i: nat, lengths: seq<nat>)
    requires i + |order| <= CODE_LENGTHS && |lengths| == CODE_LENGTHS
    requires forall k | 0 <= k < |order| :: order[k] < Pow2(3)
    requires At(b, pos, OrderEncoding(order))
    ensures CodeLengths(b, pos, i, i + |order|, lengths)
      == Ok(Taken(Ordered(order, i, lengths), pos + 3 * |order|))
    decreases |order|
  {
    hide At, Field, ToBits, Place;
    if order != [] {
      AtSplit(b, pos, ToBits(order[0], 3), OrderEncoding(order[1..]));
      FieldWritten(b, pos, order[0], 3);
      OrderWritten(order[1..], b, pos + 3, i + 1, lengths[Place(i) := order[0]]);
    }
  }

  lemma RunWritten(run: LengthRun, code: seq<nat>, b: seq<bool>, pos: nat, done: seq<nat>)
    requires RunEncodable(code, run) && At(b, pos, RunExtra(run)) && RunMeaning(run, done).Some?
    ensures Repeated(b, pos, RunSymbol(run), done)
      == Ok(Taken(RunMeaning(run, done).value, pos + |RunExtra(run)|))
  {
    hide At, Field, ToBits;
    match run
    case Plain(_) =>
    case Previous(more) => FieldWritten(b, pos, more, 2);
    case Zeros(more) => FieldWritten(b, pos, more, 3);
    case ManyZeros(more) => FieldWritten(b, pos, more, 7);
  }

  lemma {:induction false} RunsGrow(runs: seq<LengthRun>, done: seq<nat>)
    requires RunsMeaning(runs, done).Some?
    ensures |done| + |runs| <= |RunsMeaning(runs, done).value|
    decreases |runs|
  {
    if runs != [] {
      var t := RunMeaning(runs[0], done).value;
      RunsGrow(runs[1..], done + Run(t.length, t.times));
    }
  }

  /** The run-length coded lengths read back, as many as there are. */
  lemma {:induction false} RunsWritten(runs: seq<LengthRun>, code: seq<nat>, b: seq<bool>, pos: nat, done: seq<nat>)
    requires |code| == CODE_LENGTHS && Accepts(code, false) && RunsEncodable(code, runs)
    requires At(b, pos, RunsEncoding(code, runs)) && RunsMeaning(runs, done).Some?
    requires |done| <= |RunsMeaning(runs, done).value|
    ensures var all := RunsMeaning(runs, done).value;
      LengthRuns(b, pos, TreeOf(code, CODE_LENGTHS), |all|, done)
      == Ok(Taken(all, pos + |RunsEncoding(code, runs)|))
    decreases |runs|
  {
    hide At, Decode, TreeOf, Accepts, SymbolBits, RunExtra, RunMeaning, Repeated;
    if runs != [] {
      var s, e := SymbolBits(code, RunSymbol(runs[0])), RunExtra(runs[0]);
      assert RunEncodable(code, runs[0]);
      AtSplit(b, pos, s, e + RunsEncoding(code, runs[1..]));
      AtSplit(b, pos + |s|, e, RunsEncoding(code, runs[1..]));
      SymbolWritten(code, false, CODE_LENGTHS, RunSymbol(runs[0]), b, pos);
      RunWritten(runs[0], code, b, pos + |s|, done);
      RunsGrow(runs, done);
      var t := RunMeaning(runs[0], done).value;
      var next := done + Run(t.length, t.times);
      RunsGrow(runs[1..], next);
      RunsWritten(runs[1..], code, b, pos + |s| + |e|, next);
    }
  }

  /** The tables of a dynamic block read back. */
  lemma HeaderWritten(h: Header, b: seq<bool>, pos: nat)
    requires ValidHeader(h) && At(b, pos, HeaderEncoding(h))
    ensures Tables(b, pos)
      == Ok(Taken(Trees(TreeOf(LiteralLengths(h), LITERALS), TreeOf(DistanceLengths(h), DISTANCES)),
                  pos + |HeaderEncoding(h)|))
  {
    hide At, Field, ToBits, TreeOf, Accepts, CodeLengths, LengthRuns, RunsEncodable, RunsEncoding,
      OrderEncoding, Ordered, RunsMeaning;
    var all := HeaderLengths(h);
    var hlit, hdist, hclen := h.literals - 257, |all| - h.literals - 1, |h.order| - 4;
    var o, r := OrderEncoding(h.order), RunsEncoding(HeaderCode(h), h.runs);
    AtSplit(b, pos, ToBits(hlit, 5), ToBits(hdist, 5) + (ToBits(hclen, 4) + (o + r)));
    AtSplit(b, pos + 5, ToBits(hdist, 5), ToBits(hclen, 4) + (o + r));
    AtSplit(b, pos + 10, ToBits(hclen, 4), o + r);
    AtSplit(b, pos + 14, o, r);
    Powers();
    FieldWritten(b, pos, hlit, 5);
    FieldWritten(b, pos + 5, hdist, 5);
    FieldWritten(b, pos + 10, hclen, 4);
    OrderWritten(h.order, b, pos + 14, 0, Run(0, CODE_LENGTHS));
    RunsWritten(h.runs, HeaderCode(h), b, pos + 14 + |o|, []);
  }

  lemma BlockWritable(block: Block, pos: nat)
    requires BlockEncodable(block, pos)
    ensures !block.Stored? ==> AllWritable(block.symbols)
  {
    hide BodyEncodable, AllWritable, ValidHeader;
    match block
    case Stored(_, _) =>
    case Fixed(symbols) => BodyRest(FixedLiteralLengths(), FixedDistanceLengths(), symbols);
    case Dynamic(header, symbols) =>
      HeaderSplits(header);
      BodyRest(LiteralLengths(header), DistanceLengths(header), symbols);
  }

  lemma FixedAccepted()
    ensures Accepts(FixedLiteralLengths(), false) && Accepts(FixedDistanceLengths(), true)
  {
    hide FixedLiteralLengths, FixedDistanceLengths, Kraft;
    FixedCodesAreComplete();
  }

  /** A block reads back as what it stands for. */
  lemma BlockWritten(block: Block, b: seq<bool>, pos: nat, out: seq<Byte>, room: nat)
    requires BlockEncodable(block, pos) && At(b, pos, BlockEncoding(block, pos))
    requires (BlockWritable(block, pos); BlockMeaning(block, out).Some?) && |out| <= room
    ensures var whole := (BlockWritable(block, pos); BlockMeaning(block, out).value);
      BlockFrom(Kind(block), b, pos, out, room)
      == Answer(whole, room, Taken(whole, pos + |BlockEncoding(block, pos)|))
  {
    hide At, BodyEncodable, ValidHeader, BodyMeaning, BodyEncoding, HeaderEncoding, StoredEncoding,
      CodedBlock, StoredBlock, DynamicBlock, TreeOf, FixedLiteralLengths, FixedDistanceLengths,
      AllWritable, Accepts;
    BlockWritable(block, pos);
    match block
    case Stored(padding, bytes) =>
      StoredWritten(padding, bytes, b, pos, out, room);
    case Fixed(symbols) =>
      FixedAccepted();
      BodyWritten(FixedLiteralLengths(), FixedDistanceLengths(), symbols, b, pos, out, room);
    case Dynamic(header, symbols) =>
      DynamicWritten(header, symbols, b, pos, out, room);
  }

  lemma DynamicWritten(header: Header, symbols: seq<Symbol>, b: seq<bool>, pos: nat, out: seq<Byte>, room: nat)
    requires BlockEncodable(Dynamic(header, symbols), pos) && AllWritable(symbols)
    requires At(b, pos, BlockEncoding(Dynamic(header, symbols), pos))
    requires BodyMeaning(symbols, out).Some? && |out| <= room
    ensures DynamicBlock(b, pos, out, room)
      == Answer(BodyMeaning(symbols, out).value, room,
           Taken(BodyMeaning(symbols, out).value, pos + |BlockEncoding(Dynamic(header, symbols), pos)|))
  {
    hide At, BodyEncodable, ValidHeader, BodyMeaning, BodyEncoding, HeaderEncoding, HeaderLengths,
      LiteralLengths, DistanceLengths, CodedBlock, Tables, TreeOf, AllWritable, Accepts;
    HeaderSplits(header);
    var literals, distances := LiteralLengths(header), DistanceLengths(header);
    var h, e := HeaderEncoding(header), BodyEncoding(literals, distances, symbols);
    AtSplit(b, pos, h, e);
    HeaderWritten(header, b, pos);
    BodyWritten(literals, distances, symbols, b, pos + |h|, out, room);
  }

  lemma HeaderSplits(h: Header)
    requires ValidHeader(h)
    ensures h.literals <= |HeaderLengths(h)|
    ensures |LiteralLengths(h)| <= LITERALS && Accepts(LiteralLengths(h), false)
    ensures |DistanceLengths(h)| <= DISTANCES && Accepts(DistanceLengths(h), true)
  {
  }

  lemma {:induction false} StreamWritable(blocks: seq<Block>, pos: nat)
    requires Encodes(blocks, pos)
    ensures forall i | 0 <= i < |blocks| && !blocks[i].Stored? :: AllWritable(blocks[i].symbols)
    decreases |blocks|
  {
    hide BlockEncodable, BlockEncoding, AllWritable;
    BlockWritable(blocks[0], pos + 3);
    if |blocks| > 1 {
      StreamWritable(blocks[1..], pos + 3 + |BlockEncoding(blocks[0], pos + 3)|);
      assert forall i | 1 <= i < |blocks| :: blocks[i] == blocks[1..][i - 1];
    }
  }

  /** Every stream of the format reads back as what it stands for, or for lack of room as that. */
  lemma {:induction false} StreamWritten(blocks: seq<Block>, b: seq<bool>, pos: nat, out: seq<Byte>, room: nat)
    requires Encodes(blocks, pos) && At(b, pos, StreamEncoding(blocks, pos))
    requires (StreamWritable(blocks, pos); StreamMeaning(blocks, out).Some?) && |out| <= room
    ensures var whole := (StreamWritable(blocks, pos); StreamMeaning(blocks, out).value);
      InflateFrom(b, pos, out, room) == Answer(whole, room, whole)
    decreases |blocks|
  {
    hide At, Field, ToBits, BlockEncodable, BlockEncoding, BlockMeaning, CodedBlock, StoredBlock,
      DynamicBlock, TreeOf, AllWritable;
    StreamWritable(blocks, pos);
    var last := if |blocks| == 1 then 1 else 0;
    var block := blocks[0];
    var e := BlockEncoding(block, pos + 3);
    var rest := if |blocks| == 1 then [] else StreamEncoding(blocks[1..], pos + 3 + |e|);
    AtSplit(b, pos, ToBits(last, 1), ToBits(Kind(block), 2) + (e + rest));
    AtSplit(b, pos + 1, ToBits(Kind(block), 2), e + rest);
    AtSplit(b, pos + 3, e, rest);
    Powers();
    FieldWritten(b, pos, last, 1);
    FieldWritten(b, pos + 1, Kind(block), 2);
    BlockWritable(block, pos + 3);
    BlockWritten(block, b, pos + 3, out, room);
    var next := BlockMeaning(block, out).value;
    if |blocks| > 1 {
      StreamWritable(blocks[1..], pos + 3 + |e|);
      if |next| <= room {
        StreamWritten(blocks[1..], b, pos + 3 + |e|, next, room);
      }
    } else {
      assert blocks[1..] == [];
      assert StreamMeaning(blocks, out) == StreamMeaning([], next) == Some(next);
    }
  }
}
