/** The compressor. */
module Deflater {
  import Words
  import opened BitStrings
  import opened Wrappers
  import opened DeflateErrors
  import opened BitIO
  import opened HuffmanCode
  import opened Huffman
  import opened DeflateTables
  import opened InflateSpec
  import opened DeflateFormat
  import opened InflateSound
  import opened MatchSpec
  import opened Matcher
  import opened DeflateSpec
  import opened DeflateLength

  /** There is room for the whole bytes of as many bits. */
  predicate Fits(writer: Writer, bits: nat) {
    bits / 8 <= writer.out.Length
  }

  lemma LessFits(writer: Writer, bits: nat, more: nat)
    ensures Fits(writer, bits + more) ==> Fits(writer, bits)
  {
  }

  /** A code for each symbol that has a length. */
  ghost predicate CodesOf(codes: seq<nat>, lengths: seq<nat>) {
    && |codes| == |lengths| && (forall s | 0 <= s < |lengths| :: lengths[s] <= MAX_BITS)
    && (forall s | 0 <= s < |lengths| && Coded(lengths, s) :: codes[s] == Code(lengths, s))
  }

  /** The codes of an alphabet whose lengths leave room for every symbol. */
  method CodesFor(lengths: seq<nat>) returns (codes: seq<nat>)
    requires |lengths| <= U16_MAX && Kraft(lengths) <= Pow2(MAX_BITS)
    requires forall s | 0 <= s < |lengths| :: lengths[s] <= MAX_BITS
    ensures CodesOf(codes, lengths)
  {
    hide Kraft, Code;
    codes := NewCodes(lengths);
  }

  /** Appends `SymbolBits(lengths, symbol)` to the stream. */
  method PutSymbol(writer: Writer, codes: seq<nat>, lengths: seq<nat>, symbol: nat) returns (r: Result<(), Error>)
    requires writer.Valid() && CodesOf(codes, lengths)
    modifies writer, writer.out
    ensures r.Ok? <==> symbol < |lengths| && Fits(writer, old(|writer.Content()|) + lengths[symbol])
    ensures r.Ok? ==> writer.Valid()
    ensures r.Ok? && Coded(lengths, symbol) ==>
      writer.Content() == old(writer.Content()) + SymbolBits(lengths, symbol)
    ensures r.Err? ==> r == Err(if symbol < |lengths| then Output else Input)
  {
    hide Code;
    if symbol >= |codes| {
      return Err(Input);
    }
    r := writer.Code(codes[symbol], lengths[symbol]);
  }

  /** Writes a code and its extra bits. */
  method PutCoded(writer: Writer, codes: seq<nat>, lengths: seq<nat>, w: Written) returns (r: Result<(), Error>)
    requires writer.Valid() && CodesOf(codes, lengths) && Coded(lengths, w.code) && w.extra <= 13
    modifies writer, writer.out
    ensures r.Ok? <==> Fits(writer, old(|writer.Content()|) + lengths[w.code] + w.extra)
    ensures r.Err? ==> r == Err(Output)
    ensures r.Ok? ==> writer.Valid()
    ensures r.Ok? ==>
      writer.Content() == old(writer.Content()) + (SymbolBits(lengths, w.code) + ToBits(w.value, w.extra))
  {
    hide CodesOf, SymbolBits, ToBits, BytesBits;
    r := PutSymbol(writer, codes, lengths, w.code);
    if r.Ok? {
      r := writer.Bits(w.value, w.extra);
    }
  }

  /** The length of a run that is there has a code, and so has its distance. */
  lemma FoundWritten(found: Found, x: Written, y: Written)
    requires Names(LENGTHS, x, found.length) && Names(DISTANCE_CODES, y, found.distance)
    ensures x.extra <= 13 && y.extra <= 13
    ensures Encodable(FixedLiteralLengths(), FixedDistanceLengths(), Match(x, y))
    ensures Writable(LENGTHS, x) && Writable(DISTANCE_CODES, y)
    ensures TokenOf(Match(x, y)) == Run(found)
    ensures SymbolEncoding(FixedLiteralLengths(), FixedDistanceLengths(), Match(x, y))
      == (SymbolBits(FixedLiteralLengths(), x.code) + ToBits(x.value, x.extra))
      + (SymbolBits(FixedDistanceLengths(), y.code) + ToBits(y.value, y.extra))
  {
    hide FixedLiteralLengths, FixedDistanceLengths, SymbolBits, ToBits, Ladder, Names, Find, Coded;
    TablesAreLadders();
    NamesFound(LENGTHS, FIRST_LENGTH, x, found.length);
    NamesFound(DISTANCE_CODES, 0, y, found.distance);
    FixedLengthsCode(x.code);
    FixedLengthsCode(y.code);
    assert Coded(FixedLiteralLengths(), x.code) && Coded(FixedDistanceLengths(), y.code);
    var a, b := SymbolBits(FixedLiteralLengths(), x.code), ToBits(x.value, x.extra);
    var c := SymbolBits(FixedDistanceLengths(), y.code) + ToBits(y.value, y.extra);
    assert a + (b + c) == (a + b) + c;
  }

  /** Writes two codes, each with its extra bits. */
  method PutPair(writer: Writer, literals: seq<nat>, distances: seq<nat>, x: Written, y: Written)
    returns (r: Result<(), Error>)
    requires writer.Valid()
    requires CodesOf(literals, FixedLiteralLengths()) && CodesOf(distances, FixedDistanceLengths())
    requires Coded(FixedLiteralLengths(), x.code) && x.extra <= 13
    requires Coded(FixedDistanceLengths(), y.code) && y.extra <= 13
    modifies writer, writer.out
    ensures r.Ok? <==> Fits(writer, old(|writer.Content()|)
      + (FixedLiteralLengths()[x.code] + x.extra + FixedDistanceLengths()[y.code] + y.extra))
    ensures r.Err? ==> r == Err(Output)
    ensures r.Ok? ==> writer.Valid()
    ensures r.Ok? ==> (writer.Content() == old(writer.Content())
      + ((SymbolBits(FixedLiteralLengths(), x.code) + ToBits(x.value, x.extra))
        + (SymbolBits(FixedDistanceLengths(), y.code) + ToBits(y.value, y.extra))))
  {
    hide CodesOf, FixedLiteralLengths, FixedDistanceLengths, SymbolBits, ToBits, BytesBits, Fits;
    ghost var before := writer.Content();
    ghost var a := SymbolBits(FixedLiteralLengths(), x.code) + ToBits(x.value, x.extra);
    ghost var b := SymbolBits(FixedDistanceLengths(), y.code) + ToBits(y.value, y.extra);
    LessFits(writer, |before| + FixedLiteralLengths()[x.code] + x.extra, FixedDistanceLengths()[y.code] + y.extra);
    r := PutCoded(writer, literals, FixedLiteralLengths(), x);
    if r.Ok? {
      assert (before + a) + b == before + (a + b);
      r := PutCoded(writer, distances, FixedDistanceLengths(), y);
    }
  }

  /** Writes one run: a length and a distance, each a code and its extra bits. */
  method PutMatch(writer: Writer, literals: seq<nat>, distances: seq<nat>, found: Found)
    returns (r: Result<(), Error>, ghost s: Symbol)
    requires writer.Valid()
    requires CodesOf(literals, FixedLiteralLengths()) && CodesOf(distances, FixedDistanceLengths())
    requires MIN_MATCH <= found.length <= MAX_MATCH && 1 <= found.distance <= WINDOW
    modifies writer, writer.out
    ensures r.Ok? <==> Fits(writer, old(|writer.Content()|) + TokenBits(Run(found)))
    ensures r.Err? ==> r == Err(Output)
    ensures s.Match? && Encodable(FixedLiteralLengths(), FixedDistanceLengths(), s)
    ensures Writable(LENGTHS, s.length) && Writable(DISTANCE_CODES, s.distance)
    ensures TokenOf(s) == Run(found)
    ensures r.Ok? ==> writer.Valid()
    ensures r.Ok? ==> |writer.Content()| == old(|writer.Content()|) + TokenBits(Run(found))
    ensures r.Ok? ==> (writer.Content()
      == old(writer.Content()) + SymbolEncoding(FixedLiteralLengths(), FixedDistanceLengths(), s))
  {
    hide CodesOf, FixedLiteralLengths, FixedDistanceLengths, SymbolBits, ToBits, BytesBits, Names, Fits, Last,
      TokenBits, TokenOf, SymbolEncoding, Find;
    var length := LengthCode(found.length);
    var distance := DistanceCode(found.distance);
    var x, y := length.value, distance.value;
    s := Match(x, y);
    FoundWritten(found, x, y);
    MatchBits(x, y, found);
    r := PutPair(writer, literals, distances, x, y);
  }

  /** Notes every place of a run. */
  method InsertRun(scratch: Scratch, input: seq<Words.Byte>, at: nat, length: nat)
    requires scratch.Valid() && at + length <= |input|
    modifies scratch.head, scratch.prev
    ensures old(scratch.Indexed(input, at)) ==> scratch.Indexed(input, at + length)
  {
    hide scratch.Indexed;
    ghost var indexed := scratch.Indexed(input, at);
    for step := 0 to length
      invariant indexed ==> scratch.Indexed(input, at + step)
    {
      scratch.Insert(input, at + step);
    }
  }

  /** What a step says, and where it leaves off. */
  lemma MatchMeans(input: seq<Words.Byte>, at: nat, found: Found, s: Symbol)
    requires at <= |input| && Sound(input, at, found)
    requires s.Match? && Writable(LENGTHS, s.length) && Writable(DISTANCE_CODES, s.distance)
    requires TokenOf(s) == Run(found)
    ensures SymbolMeaning(s, input[..at]) == Some(input[..at + found.length])
  {
    hide Writable, CopyBack, Number, Find;
    CopyBackRun(input, at, found.distance, found.length);
  }

  lemma LiteralMeans(input: seq<Words.Byte>, at: nat)
    requires at < |input|
    ensures SymbolMeaning(Literal(input[at]), input[..at]) == Some(input[..at + 1])
  {
    assert input[..at] + [input[at]] == input[..at + 1];
  }

  /** What is left of the greedy steps after the one at `at`. */
  lemma GreedyStep(input: seq<Words.Byte>, at: nat, tokens: seq<Token>)
    requires at < |input|
    ensures var best := BestMatch(input, at);
      best.None? ==>
        tokens + Greedy(input, at) == (tokens + [Token.Byte(input[at])]) + Greedy(input, at + 1)
    ensures var best := BestMatch(input, at);
      best.Some? && at + best.value.length <= |input| ==>
        tokens + Greedy(input, at) == (tokens + [Run(best.value)]) + Greedy(input, at + best.value.length)
  {
    hide BestMatch;
    BestFits(input, at);
  }

  /** The symbols written so far go on to the greedy steps. */
  ghost predicate OnTrack(symbols: seq<Symbol>, input: seq<Words.Byte>, at: nat)
    requires at <= |input| && AllWritable(symbols)
  {
    TokensOf(symbols) + Greedy(input, at) == Greedy(input, 0)
  }

  /** Writes one byte as itself. */
  method PutLiteral(writer: Writer, literals: seq<nat>, byte: Words.Byte) returns (r: Result<(), Error>)
    requires writer.Valid() && CodesOf(literals, FixedLiteralLengths())
    modifies writer, writer.out
    ensures r.Ok? <==> Fits(writer, old(|writer.Content()|) + TokenBits(Token.Byte(byte)))
    ensures r.Err? ==> r == Err(Output)
    ensures Encodable(FixedLiteralLengths(), FixedDistanceLengths(), Literal(byte))
    ensures r.Ok? ==> writer.Valid()
    ensures r.Ok? ==> |writer.Content()| == old(|writer.Content()|) + TokenBits(Token.Byte(byte))
    ensures r.Ok? ==> (writer.Content() == old(writer.Content())
      + SymbolEncoding(FixedLiteralLengths(), FixedDistanceLengths(), Literal(byte)))
  {
    hide FixedLiteralLengths, FixedDistanceLengths, CodesOf, SymbolBits, BytesBits, ToBits;
    FixedLengthsCode(byte);
    LiteralBits(byte);
    r := PutSymbol(writer, literals, FixedLiteralLengths(), byte);
  }

  /** A step that takes what `BestMatch` finds stays on track. */
  lemma StaysOnTrack(symbols: seq<Symbol>, s: Symbol, input: seq<Words.Byte>, at: nat, next: nat)
    requires at < next <= |input| && AllWritable(symbols) && AllWritable(symbols + [s])
    requires s.Match? ==> Writable(LENGTHS, s.length) && Writable(DISTANCE_CODES, s.distance)
    requires TokensOf(symbols + [s]) == TokensOf(symbols) + [TokenOf(s)]
    requires var best := BestMatch(input, at);
      if best.Some? then TokenOf(s) == Run(best.value) && next == at + best.value.length
      else TokenOf(s) == Token.Byte(input[at]) && next == at + 1
    ensures OnTrack(symbols, input, at) ==> OnTrack(symbols + [s], input, next)
  {
    hide TokensOf, TokenOf, BestMatch, Greedy, Writable, AllWritable;
    GreedyStep(input, at, TokensOf(symbols));
  }

  /** One step: the run the table leads to, or the byte. */
  method Step(writer: Writer, scratch: Scratch, literals: seq<nat>, distances: seq<nat>, input: seq<Words.Byte>,
      at: nat, ghost symbols: seq<Symbol>)
    returns (r: Result<nat, Error>, ghost s: Symbol)
    requires writer.Valid() && scratch.Valid() && at < |input|
    requires CodesOf(literals, FixedLiteralLengths()) && CodesOf(distances, FixedDistanceLengths())
    requires DeflateSpec.Written(symbols, input, at, writer.Content())
    modifies writer, writer.out, scratch.head, scratch.prev
    ensures r.Err? ==> r == Err(Output)
    ensures r.Ok? ==> writer.Valid() && at < r.value <= |input|
    ensures r.Ok? ==> DeflateSpec.Written(symbols + [s], input, r.value, writer.Content())
    ensures r.Ok? ==> AllWritable(symbols + [s])
    ensures r.Ok? && old(scratch.Indexed(input, at)) ==>
      scratch.Indexed(input, r.value) && (OnTrack(symbols, input, at) ==> OnTrack(symbols + [s], input, r.value))
    ensures old(scratch.Indexed(input, at)) ==> if r.Ok?
      then |writer.Content()| + BitsFrom(input, r.value) == old(|writer.Content()|) + BitsFrom(input, at)
      else !Fits(writer, old(|writer.Content()|) + BitsFrom(input, at))
  {
    hide BitsFrom, TokenBits, Fits, CodesOf, FixedLiteralLengths, FixedDistanceLengths, SymbolBits, ToBits,
      BytesBits, BestMatch, SymbolEncoding, Encodable, TokensOf, BodyMeaning, SymbolMeaning, SymbolsEncoding, Number,
      Writable, AllWritable, OnTrack, DeflateSpec.Written, scratch.Indexed, writer.Content;
    var best := Longest(input, at, scratch);
    ghost var before, track := writer.Content(), scratch.Indexed(input, at);
    var put: Result<(), Error>;
    var length: nat := 1;
    if best.Some? {
      length := best.value.length;
      put, s := PutMatch(writer, literals, distances, best.value);
      MatchMeans(input, at, best.value, s);
    } else {
      s := Literal(input[at]);
      put := PutLiteral(writer, literals, input[at]);
      LiteralMeans(input, at);
    }
    if track {
      StepBits(input, at, TokenOf(s), at + length);
      LessFits(writer, |before| + TokenBits(TokenOf(s)), BitsFrom(input, at + length));
    }
    if put.Err? {
      return Err(put.error), s;
    }
    WriteOne(symbols, s, input, at, at + length, before);
    InsertRun(scratch, input, at, length);
    if track {
      StaysOnTrack(symbols, s, input, at, at + length);
    }
    r := Ok(at + length);
  }

  /** Writes every step, after the header of the block. */
  method PutSymbols(writer: Writer, scratch: Scratch, literals: seq<nat>, distances: seq<nat>, input: seq<Words.Byte>)
    returns (r: Result<(), Error>, ghost symbols: seq<Symbol>)
    requires writer.Valid() && scratch.Valid()
    requires CodesOf(literals, FixedLiteralLengths()) && CodesOf(distances, FixedDistanceLengths())
    requires writer.Content() == ToBits(1, 1) + ToBits(1, 2)
    modifies writer, writer.out, scratch.head, scratch.prev
    ensures r.Err? ==> r == Err(Output)
    ensures r.Ok? ==> writer.Valid() && AllWritable(symbols)
    ensures r.Ok? ==> DeflateSpec.Written(symbols, input, |input|, writer.Content())
    ensures r.Ok? ==> OnTrack(symbols, input, |input|)
    ensures if r.Ok? then |writer.Content()| == 3 + BitsFrom(input, 0) else !Fits(writer, 3 + BitsFrom(input, 0))
  {
    hide BitsFrom, CodesOf, FixedLiteralLengths, FixedDistanceLengths, ToBits, BytesBits, AllWritable, OnTrack,
      DeflateSpec.Written, scratch.Indexed;
    symbols := [];
    scratch.Clear();
    Begin(input, writer.Content());
    var at := 0;
    while at < |input|
      invariant at <= |input| && writer.Valid() && AllWritable(symbols)
      invariant DeflateSpec.Written(symbols, input, at, writer.Content())
      invariant scratch.Indexed(input, at) && OnTrack(symbols, input, at)
      invariant |writer.Content()| + BitsFrom(input, at) == 3 + BitsFrom(input, 0)
    {
      var next;
      ghost var s;
      next, s := Step(writer, scratch, literals, distances, input, at, symbols);
      if next.Err? {
        return Err(next.error), symbols;
      }
      at, symbols := next.value, symbols + [s];
    }
    r := Ok(());
  }

  /** The last block, and the fixed codes. */
  method PutHeader(writer: Writer) returns (r: Result<(), Error>)
    requires writer.Valid() && writer.Content() == []
    modifies writer, writer.out
    ensures r.Ok? <==> Fits(writer, 3)
    ensures r.Err? ==> r == Err(Output)
    ensures r.Ok? ==> writer.Valid() && writer.Content() == ToBits(1, 1) + ToBits(1, 2)
  {
    hide ToBits, BytesBits;
    r := writer.Bits(1, 1);
    if r.Ok? {
      r := writer.Bits(1, 2);
    }
  }

  lemma EndBits()
    ensures FixedLiteralLengths()[END_OF_BLOCK] == 7
  {
  }

  /** The symbol that ends the block, and the rest of the last byte. */
  method PutEnd(writer: Writer, literals: seq<nat>, ghost input: seq<Words.Byte>, ghost symbols: seq<Symbol>)
    returns (r: Result<nat, Error>)
    requires writer.Valid() && CodesOf(literals, FixedLiteralLengths())
    requires DeflateSpec.Written(symbols, input, |input|, writer.Content())
    modifies writer, writer.out
    ensures r.Ok? <==> (old(|writer.Content()|) + 7 + 7) / 8 <= writer.out.Length
    ensures r.Ok? ==> r.value == (old(|writer.Content()|) + 7 + 7) / 8
    ensures r.Err? ==> r == Err(Output)
    ensures r.Ok? ==> StreamOf(writer.out[..r.value], [Fixed(symbols)], input)
  {
    hide CodesOf, FixedLiteralLengths, SymbolBits, ToBits, BytesBits, DeflateSpec.Written, StreamOf;
    ghost var content := writer.Content();
    FixedLengthsCode(END_OF_BLOCK);
    EndBits();
    var put := PutSymbol(writer, literals, FixedLiteralLengths(), END_OF_BLOCK);
    if put.Err? {
      return Err(put.error);
    }
    ghost var whole := writer.Content();
    r := writer.Finish();
    if r.Ok? {
      FixedStream(symbols, input, content, writer.out[..r.value], ToBits(0, 8 * r.value - |whole|));
    }
  }

  /** Writes the input as one block of the fixed codes. What is written is a stream of the format
      that stands for the input. It takes exactly `DeflatedLength` bytes, and fails exactly when
      there are not as many. The steps are the greedy ones. */
  method Deflate(input: seq<Words.Byte>, out: array<Words.Byte>, scratch: Scratch)
    returns (r: Result<nat, Error>, ghost symbols: seq<Symbol>)
    requires scratch.Valid()
    modifies out, scratch.head, scratch.prev
    ensures r.Ok? <==> DeflatedLength(input) <= out.Length
    ensures r.Err? ==> r == Err(Output)
    ensures r.Ok? ==> r.value == DeflatedLength(input) && StreamOf(out[..r.value], [Fixed(symbols)], input)
    ensures r.Ok? ==>
      AllWritable(symbols) && TokensOf(symbols) == Greedy(input, 0)
  {
    hide CodesOf, FixedLiteralLengths, FixedDistanceLengths, SymbolBits, ToBits, BytesBits, Kraft,
      AllWritable, OnTrack, DeflateSpec.Written, StreamOf, TokensOf, Greedy, BitsFrom;
    symbols := [];
    FixedBounds();
    var literals := CodesFor(FixedLiteralLengths());
    var distances := CodesFor(FixedDistanceLengths());
    var writer := new Writer(out);
    var put := PutHeader(writer);
    if put.Ok? {
      put, symbols := PutSymbols(writer, scratch, literals, distances, input);
    }
    if put.Err? {
      return Err(put.error), symbols;
    }
    r := PutEnd(writer, literals, input, symbols);
    if r.Ok? {
      AllTaken(symbols, input);
    }
  }

  lemma FixedBounds()
    ensures Kraft(FixedLiteralLengths()) <= Pow2(MAX_BITS) && Kraft(FixedDistanceLengths()) <= Pow2(MAX_BITS)
    ensures forall s | 0 <= s < LITERALS :: FixedLiteralLengths()[s] <= MAX_BITS
    ensures forall s | 0 <= s < DISTANCES :: FixedDistanceLengths()[s] <= MAX_BITS
  {
    hide Kraft, Pow2;
    FixedCodesAreComplete();
  }

  lemma Begin(input: seq<Words.Byte>, content: seq<bool>)
    requires content == ToBits(1, 1) + ToBits(1, 2)
    ensures DeflateSpec.Written([], input, 0, content) && AllWritable([]) && OnTrack([], input, 0)
  {
    hide ToBits, Greedy;
    assert input[..0] == [];
    assert [] + Greedy(input, 0) == Greedy(input, 0);
  }

  lemma AllTaken(symbols: seq<Symbol>, input: seq<Words.Byte>)
    requires AllWritable(symbols) && OnTrack(symbols, input, |input|)
    ensures TokensOf(symbols) == Greedy(input, 0)
  {
    hide TokensOf;
    assert TokensOf(symbols) + [] == TokensOf(symbols);
  }
}
