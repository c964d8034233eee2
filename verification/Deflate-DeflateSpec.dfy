/** What the compressor writes, as data of the format. */
module DeflateSpec {
  import Words
  import opened BitStrings
  import opened Wrappers
  import opened HuffmanCode
  import opened DeflateTables
  import opened InflateSpec
  import opened DeflateFormat
  import opened InflateComplete
  import opened InflateSound
  import opened MatchSpec

  /** A step of the compressor: a byte as itself, or a run seen before. */
  datatype Token = Byte(byte: Words.Byte) | Run(found: Found)

  /** The steps from `at` on: at every place the best run, or the byte. */
  function Greedy(input: seq<Words.Byte>, at: nat): (tokens: seq<Token>)
    requires at <= |input|
    decreases |input| - at
  {
    if at == |input| then []
    else
      var best := BestMatch(input, at);
      BestFits(input, at);
      if best.None? then [Byte(input[at])] + Greedy(input, at + 1)
      else [Run(best.value)] + Greedy(input, at + best.value.length)
  }

  lemma BestFits(input: seq<Words.Byte>, at: nat)
    requires at <= |input|
    ensures var best := BestMatch(input, at);
      best.Some? ==> MIN_MATCH <= best.value.length && at + best.value.length <= |input|
  {
    hide Common;
    BestMatchIsBest(input, at);
  }

  /** What a symbol of the format says, as a step. */
  ghost function TokenOf(s: Symbol): (t: Token)
    requires s.Match? ==> Writable(LENGTHS, s.length) && Writable(DISTANCE_CODES, s.distance)
  {
    match s
    case Literal(byte) => Byte(byte)
    case Match(length, distance) =>
      Run(Found(Number(LENGTHS, length), Number(DISTANCE_CODES, distance)))
  }

  ghost function TokensOf(symbols: seq<Symbol>): (tokens: seq<Token>)
    requires AllWritable(symbols)
    ensures |tokens| == |symbols|
  {
    if symbols == [] then []
    else TokensOf(symbols[..|symbols| - 1]) + [TokenOf(symbols[|symbols| - 1])]
  }

  /** The symbols of a fixed block without the one that ends it. */
  ghost function SymbolsEncoding(symbols: seq<Symbol>): (bits: seq<bool>)
    requires FixedEncodable(symbols)
  {
    if symbols == [] then []
    else
      SymbolsEncoding(symbols[..|symbols| - 1])
      + SymbolEncoding(FixedLiteralLengths(), FixedDistanceLengths(), symbols[|symbols| - 1])
  }

  ghost predicate FixedEncodable(symbols: seq<Symbol>) {
    forall i | 0 <= i < |symbols| ::
      Encodable(FixedLiteralLengths(), FixedDistanceLengths(), symbols[i])
  }

  lemma FixedBody(symbols: seq<Symbol>)
    requires FixedEncodable(symbols)
    ensures BodyEncodable(FixedLiteralLengths(), FixedDistanceLengths(), symbols) && AllWritable(symbols)
  {
    hide FixedLiteralLengths, FixedDistanceLengths, Encodable;
    FixedLengthsCode(END_OF_BLOCK);
    BodyRest(FixedLiteralLengths(), FixedDistanceLengths(), symbols);
  }

  /** A body grows at its end. */
  lemma {:induction false} BodyEncodingIs(symbols: seq<Symbol>, more: seq<Symbol>)
    requires FixedEncodable(symbols + more) && FixedEncodable(symbols) && FixedEncodable(more)
    ensures (FixedBody(symbols + more); FixedBody(more);
      BodyEncoding(FixedLiteralLengths(), FixedDistanceLengths(), symbols + more)
      == SymbolsEncoding(symbols) + BodyEncoding(FixedLiteralLengths(), FixedDistanceLengths(), more))
    decreases |symbols|
  {
    hide FixedLiteralLengths, FixedDistanceLengths, Encodable, SymbolEncoding, SymbolBits;
    FixedBody(symbols + more);
    FixedBody(more);
    if symbols == [] {
      assert symbols + more == more;
    } else {
      var n := |symbols| - 1;
      var front, s := symbols[..n], symbols[n];
      assert FixedEncodable([s] + more);
      FixedBody([s] + more);
      assert ([s] + more)[1..] == more;
      assert symbols + more == front + ([s] + more);
      BodyEncodingIs(front, [s] + more);
    }
  }

  lemma {:induction false} BodyMeaningAppend(symbols: seq<Symbol>, s: Symbol, out: seq<Words.Byte>)
    requires AllWritable(symbols) && AllWritable(symbols + [s])
    requires s.Match? ==> Writable(LENGTHS, s.length) && Writable(DISTANCE_CODES, s.distance)
    requires BodyMeaning(symbols, out).Some?
    ensures BodyMeaning(symbols + [s], out) == SymbolMeaning(s, BodyMeaning(symbols, out).value)
    decreases |symbols|
  {
    hide Writable, SymbolMeaning;
    if symbols == [] {
      assert symbols + [s] == [s];
      assert [s][1..] == [];
    } else {
      assert (symbols + [s])[1..] == symbols[1..] + [s];
      BodyMeaningAppend(symbols[1..], s, SymbolMeaning(symbols[0], out).value);
    }
  }

  /** Copying back over a run that is there writes the run. */
  lemma {:induction false} CopyBackRun(input: seq<Words.Byte>, at: nat, distance: nat, length: nat)
    requires 1 <= distance <= at && at + length <= |input|
    requires input[at - distance..at - distance + length] == input[at..at + length]
    ensures CopyBack(input[..at], distance, length) == input[..at + length]
    decreases length
  {
    if length > 0 {
      var x, y := input[at - distance..at - distance + length], input[at..at + length];
      assert x[0] == y[0] && x[1..] == y[1..];
      assert input[..at] + [input[at]] == input[..at + 1];
      assert x[1..] == input[at + 1 - distance..at + 1 - distance + (length - 1)];
      assert y[1..] == input[at + 1..at + 1 + (length - 1)];
      CopyBackRun(input, at + 1, distance, length - 1);
    }
  }

  /** The symbols say the first `at` bytes of the input, and are written from the header on. */
  ghost predicate Written(symbols: seq<Symbol>, input: seq<Words.Byte>, at: nat, content: seq<bool>)
    requires at <= |input|
  {
    && FixedEncodable(symbols) && AllWritable(symbols)
    && BodyMeaning(symbols, []) == Some(input[..at])
    && content == ToBits(1, 1) + ToBits(1, 2) + SymbolsEncoding(symbols)
  }

  /** One more symbol. */
  lemma WriteOne(symbols: seq<Symbol>, s: Symbol, input: seq<Words.Byte>, at: nat, next: nat, content: seq<bool>)
    requires at <= next <= |input| && Written(symbols, input, at, content)
    requires Encodable(FixedLiteralLengths(), FixedDistanceLengths(), s)
    requires s.Match? ==> Writable(LENGTHS, s.length) && Writable(DISTANCE_CODES, s.distance)
    requires SymbolMeaning(s, input[..at]) == Some(input[..next])
    ensures Written(symbols + [s], input, next,
      content + SymbolEncoding(FixedLiteralLengths(), FixedDistanceLengths(), s))
    ensures AllWritable(symbols) && AllWritable(symbols + [s])
    ensures TokensOf(symbols + [s]) == TokensOf(symbols) + [TokenOf(s)]
  {
    hide FixedLiteralLengths, FixedDistanceLengths, Encodable, SymbolEncoding, SymbolMeaning, Writable, ToBits;
    var more := symbols + [s];
    assert more[..|more| - 1] == symbols;
    BodyMeaningAppend(symbols, s, []);
  }

  /** A finished fixed block is a stream of the format. */
  lemma FixedStream(symbols: seq<Symbol>, input: seq<Words.Byte>, content: seq<bool>, bytes: seq<Words.Byte>,
      zeros: seq<bool>)
    requires Written(symbols, input, |input|, content)
    requires (FixedLengthsCode(END_OF_BLOCK);
      BytesBits(bytes) == content + SymbolBits(FixedLiteralLengths(), END_OF_BLOCK) + zeros)
    ensures StreamOf(bytes, [Fixed(symbols)], input)
  {
    hide FixedLiteralLengths, FixedDistanceLengths, SymbolBits, SymbolEncoding, ToBits, BytesBits,
      Encodable, BodyMeaning, AllWritable;
    FixedLengthsCode(END_OF_BLOCK);
    FixedBody(symbols);
    var blocks := [Fixed(symbols)];
    var end := SymbolBits(FixedLiteralLengths(), END_OF_BLOCK);
    var body := BodyEncoding(FixedLiteralLengths(), FixedDistanceLengths(), symbols);
    assert symbols + [] == symbols;
    BodyEncodingIs(symbols, []);
    assert body == SymbolsEncoding(symbols) + end;
    assert Encodes(blocks, 0);
    var e := StreamEncoding(blocks, 0);
    var x, y := ToBits(1, 1), ToBits(1, 2);
    assert e == x + (y + (body + []));
    assert x + (y + (body + [])) == content + end;
    assert At(BytesBits(bytes), 0, e);
    assert input[..|input|] == input;
    StreamWritable(blocks, 0);
    FixedStreamMeaning(symbols);
  }

  lemma FixedStreamMeaning(symbols: seq<Symbol>)
    requires AllWritable(symbols)
    ensures StreamMeaning([Fixed(symbols)], []) == BodyMeaning(symbols, [])
  {
    hide BodyMeaning, AllWritable;
    var blocks := [Fixed(symbols)];
    assert blocks[1..] == [];
    var next := BlockMeaning(blocks[0], []);
    if next.Some? {
      assert StreamMeaning([], next.value) == Some(next.value);
    }
  }
}
