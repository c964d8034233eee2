/** Blocks that carry their bytes unchanged, and the choice between them and the fixed codes. */
module StoredStreams {
  import opened Words
  import opened BitStrings
  import opened Wrappers
  import opened DeflateErrors
  import opened BitIO
  import opened InflateSpec
  import opened DeflateFormat
  import opened InflateComplete
  import opened InflateSound
  import opened Matcher
  import Inflater
  import Deflater
  import opened DeflateLength
  import opened DeflateSpec

  /** The greatest number its sixteen bits of length can hold. */
  const STORED_BLOCK := 65535

  /** A block of at most `STORED_BLOCK` bytes has five more; an empty input has one block. */
  function StoredLength(length: nat): (n: nat) {
    var blocks := (length + STORED_BLOCK - 1) / STORED_BLOCK;
    length + 5 * (if blocks == 0 then 1 else blocks)
  }

  /** What of the input the next block carries. */
  function PieceLength(left: nat): (n: nat)
    ensures n <= left && n <= STORED_BLOCK
    ensures left > STORED_BLOCK ==> n > 0
  {
    if left <= STORED_BLOCK then left else STORED_BLOCK
  }

  /** Two bytes, least significant first. */
  function Pair(n: nat): (bytes: seq<Byte>)
    requires n <= 0xFFFF
    ensures |bytes| == 2
  {
    [n % 256, n / 256]
  }

  /** One block: the byte that says what it is, the length, its complement, and the bytes. */
  function BlockBytes(last: bool, piece: seq<Byte>): (bytes: seq<Byte>)
    requires |piece| <= STORED_BLOCK
    ensures |bytes| == 5 + |piece|
  {
    [if last then 1 else 0] + (Pair(|piece|) + (Pair(0xFFFF - |piece|) + piece))
  }

  /** The blocks of a stored stream. */
  function StoredBlocks(input: seq<Byte>): (blocks: seq<Block>)
    ensures blocks != [] && forall i | 0 <= i < |blocks| :: blocks[i].Stored?
  {
    var n := PieceLength(|input|);
    [Block.Stored(seq(5, _ => false), input[..n])]
    + if n == |input| then [] else StoredBlocks(input[n..])
  }

  /** Every block but the last carries as many bytes as sixteen bits can count, and no block after the first
      is empty: there are as few as can be. */
  lemma {:induction false} BlocksAreFull(input: seq<Byte>, i: nat)
    requires i < |StoredBlocks(input)|
    ensures i + 1 < |StoredBlocks(input)| ==> |StoredBlocks(input)[i].bytes| == 0xFFFF
    ensures i > 0 ==> StoredBlocks(input)[i].bytes != []
    decreases |input|
  {
    var n := PieceLength(|input|);
    if n != |input| {
      var rest := input[n..];
      assert StoredBlocks(input)[1..] == StoredBlocks(rest);
      if i > 0 {
        assert StoredBlocks(input)[i] == StoredBlocks(rest)[i - 1];
        BlocksAreFull(rest, i - 1);
        if i == 1 {
          assert StoredBlocks(rest)[0].bytes == rest[..PieceLength(|rest|)];
        }
      }
    }
  }

  /** The bytes of a stored stream. */
  function StoredBytes(input: seq<Byte>): (bytes: seq<Byte>) {
    var n := PieceLength(|input|);
    BlockBytes(n == |input|, input[..n])
    + if n == |input| then [] else StoredBytes(input[n..])
  }

  lemma {:induction false} StoredBytesLength(input: seq<Byte>)
    ensures |StoredBytes(input)| == StoredLength(|input|)
    decreases |input|
  {
    var n := PieceLength(|input|);
    if n != |input| {
      StoredBytesLength(input[n..]);
    }
  }

  lemma PairBits(n: nat)
    requires n <= 0xFFFF
    ensures BytesBits(Pair(n)) == ToBits(n, 16)
  {
    hide ToBits, Shl, BytesBits;
    var x: Byte, y: Byte := n % 256, n / 256;
    Inflater.OneByte(x);
    BytesBitsAppend([x], y);
    assert [x] + [y] == Pair(n);
    Pow2Values();
    ToBitsConcat(x, 8, y, 8);
    Inflater.ShiftByte(y);
  }

  /** The byte a block begins with, bit by bit. */
  lemma LeadBits(last: bool)
    ensures ToBits(if last then 1 else 0, 8)
      == ToBits(if last then 1 else 0, 1) + (ToBits(0, 2) + seq(5, _ => false))
    ensures ToBits(0, 5) == seq(5, _ => false)
  {
    var v := if last then 1 else 0;
    assert ToBits(0, 1) == [false];
    assert ToBits(0, 2) == [false, false];
    assert ToBits(0, 3) == [false, false, false];
    assert ToBits(0, 4) == [false, false, false, false];
    assert ToBits(0, 5) == [false, false, false, false, false];
    assert ToBits(0, 7) == ToBits(0, 2) + ToBits(0, 5) by {
      assert ToBits(0, 6) == [false, false, false, false, false, false];
    }
    assert ToBits(v, 8) == [v % 2 == 1] + ToBits(0, 7);
    assert ToBits(v, 1) == [v % 2 == 1];
  }

  lemma BlockBits(last: bool, piece: seq<Byte>)
    requires |piece| <= STORED_BLOCK
    ensures BytesBits(BlockBytes(last, piece))
      == ToBits(if last then 1 else 0, 1) + (ToBits(0, 2) + StoredEncoding(seq(5, _ => false), piece))
  {
    hide ToBits, BytesBits;
    var lead: Byte := if last then 1 else 0;
    var x, y, n := Pair(|piece|), Pair(0xFFFF - |piece|), |piece|;
    BytesBitsConcat([lead], x + (y + piece));
    BytesBitsConcat(x, y + piece);
    BytesBitsConcat(y, piece);
    PairBits(n);
    PairBits(0xFFFF - n);
    Inflater.OneByte(lead);
    LeadBits(last);
    var p: seq<bool> := seq(5, _ => false);
    var a, b, c := ToBits(lead, 1), ToBits(0, 2), BytesBits(x) + (BytesBits(y) + BytesBits(piece));
    assert (a + (b + p)) + c == a + (b + (p + c));
  }

  /** A stream that begins with a stored block at a whole byte. */
  lemma StoredFirst(piece: seq<Byte>, rest: seq<Block>, pos: nat)
    requires pos % 8 == 0 && |piece| <= STORED_BLOCK
    requires rest != [] ==> Encodes(rest, pos + 40 + 8 * |piece|)
    ensures var blocks := [Block.Stored(seq(5, _ => false), piece)] + rest;
      Encodes(blocks, pos) && StreamEncoding(blocks, pos)
      == BytesBits(BlockBytes(rest == [], piece))
        + if rest == [] then [] else StreamEncoding(rest, pos + 40 + 8 * |piece|)
  {
    hide ToBits, BytesBits, StoredEncoding, BlockBytes, Encodes, StreamEncoding, BlockEncodable, BlockEncoding;
    var block := Block.Stored(seq(5, _ => false), piece);
    StoredAligned(piece, pos);
    StoredFill(piece);
    EncodesFirst(block, rest, pos, BlockEncoding(block, pos + 3));
    BlockBits(rest == [], piece);
    var a, b := ToBits(if rest == [] then 1 else 0, 1), ToBits(0, 2);
    var body, more := BlockEncoding(block, pos + 3),
      if rest == [] then [] else StreamEncoding(rest, pos + 40 + 8 * |piece|);
    assert (a + (b + body)) + more == a + (b + (body + more));
  }

  /** A stream is its first block, after what it says of it, and the rest. */
  ghost predicate FirstAndRest(block: Block, rest: seq<Block>, pos: nat, body: seq<bool>)
    requires rest != [] ==> Encodes(rest, pos + 3 + |body|)
  {
    hide BlockEncodable, BlockEncoding, Encodes, ToBits, Kind;
    Encodes([block] + rest, pos) && StreamEncoding([block] + rest, pos)
      == ToBits(if rest == [] then 1 else 0, 1) + (ToBits(Kind(block), 2)
        + (body + if rest == [] then [] else StreamEncoding(rest, pos + 3 + |body|)))
  }

  lemma EncodesFirst(block: Block, rest: seq<Block>, pos: nat, body: seq<bool>)
    requires BlockEncodable(block, pos + 3) && BlockEncoding(block, pos + 3) == body
    requires rest != [] ==> Encodes(rest, pos + 3 + |body|)
    ensures FirstAndRest(block, rest, pos, body)
  {
    hide BlockEncodable, BlockEncoding, ToBits, Kind;
    assert ([block] + rest)[1..] == rest;
  }

  lemma StoredAligned(piece: seq<Byte>, pos: nat)
    requires pos % 8 == 0 && |piece| <= STORED_BLOCK
    ensures var block := Block.Stored(seq(5, _ => false), piece);
      BlockEncodable(block, pos + 3) && BlockEncoding(block, pos + 3) == StoredEncoding(seq(5, _ => false), piece)
  {
    hide StoredEncoding, BodyEncodable, BodyEncoding, ValidHeader;
  }

  /** A stored stream is one of the format, and its bits are the bytes'. */
  lemma {:induction false} StoredEncodes(input: seq<Byte>, pos: nat)
    requires pos % 8 == 0
    ensures Encodes(StoredBlocks(input), pos)
    ensures BytesBits(StoredBytes(input)) == StreamEncoding(StoredBlocks(input), pos)
    decreases |input|
  {
    hide BytesBits, BlockBytes, Encodes, StreamEncoding;
    var n := PieceLength(|input|);
    var piece, rest := input[..n], input[n..];
    if n == |input| {
      StoredFirst(piece, [], pos);
      assert StoredBytes(input) == BlockBytes(true, piece);
    } else {
      var next := pos + 40 + 8 * n;
      StoredEncodes(rest, next);
      StoredFirst(piece, StoredBlocks(rest), pos);
      BytesBitsConcat(BlockBytes(false, piece), StoredBytes(rest));
    }
  }

  lemma StoredFill(piece: seq<Byte>)
    requires |piece| <= STORED_BLOCK
    ensures |StoredEncoding(seq(5, _ => false), piece)| == 37 + 8 * |piece|
  {
    hide ToBits, BytesBits;
  }

  lemma {:induction false} StoredMeans(input: seq<Byte>, out: seq<Byte>)
    ensures StreamMeaning(StoredBlocks(input), out) == Some(out + input)
    decreases |input|
  {
    var blocks, n := StoredBlocks(input), PieceLength(|input|);
    if n == |input| {
      assert input[..n] == input;
      assert blocks == [blocks[0]] && blocks[1..] == [];
    } else {
      var rest := input[n..];
      assert blocks[1..] == StoredBlocks(rest);
      StoredMeans(rest, out + input[..n]);
      assert (out + input[..n]) + rest == out + input;
    }
  }

  /** What `Store` writes stands for the input. */
  lemma StoredStream(input: seq<Byte>)
    ensures StreamOf(StoredBytes(input), StoredBlocks(input), input)
  {
    hide BytesBits, StreamEncoding, StreamMeaning, Encodes, StoredBytes, StoredBlocks;
    StoredEncodes(input, 0);
    StoredMeans(input, []);
    assert [] + input == input;
    var e := StreamEncoding(StoredBlocks(input), 0);
    assert e[0..|e|] == e;
    StreamWritable(StoredBlocks(input), 0);
  }

  /** The byte a block begins with: whether it is the last, its kind, and padding. */
  method PutLead(writer: Writer, last: bool) returns (r: Result<(), Error>)
    requires writer.Valid() && writer.count == 0
    modifies writer, writer.out
    ensures r.Ok? <==> old(writer.at) < writer.out.Length
    ensures r.Ok? ==> writer.Valid() && writer.count == 0 && writer.at == old(writer.at) + 1
    ensures r.Ok? ==> writer.out[..writer.at] == old(writer.out[..writer.at]) + [if last then 1 else 0]
    ensures r.Err? ==> r == Err(Output)
  {
    hide ToBits, BytesBits;
    ghost var sent, content := writer.out[..writer.at], writer.Content();
    assert content == BytesBits(sent);
    var v := if last then 1 else 0;
    r := writer.Bits(v, 1);
    if r.Ok? {
      r := writer.Bits(0, 2);
    }
    if r.Ok? {
      assert writer.count == 3;
      r := writer.Align();
    }
    if r.Ok? {
      LeadBits(last);
      BytesBitsAppend(sent, v);
      var a, b, c := ToBits(v, 1), ToBits(0, 2), ToBits(0, 5);
      assert ((content + a) + b) + c == content + (a + (b + c));
      assert writer.Content() == BytesBits(writer.out[..writer.at]);
      BytesBitsInjective(writer.out[..writer.at], sent + [v]);
    }
  }

  /** One block. */
  method PutBlock(writer: Writer, last: bool, piece: seq<Byte>) returns (r: Result<(), Error>)
    requires writer.Valid() && writer.count == 0 && |piece| <= STORED_BLOCK
    modifies writer, writer.out
    ensures r.Ok? <==> old(writer.at) + |BlockBytes(last, piece)| <= writer.out.Length
    ensures r.Ok? ==> writer.Valid() && writer.count == 0
    ensures r.Ok? ==> writer.at == old(writer.at) + |BlockBytes(last, piece)|
    ensures r.Ok? ==> writer.out[..writer.at] == old(writer.out[..writer.at]) + BlockBytes(last, piece)
    ensures r.Err? ==> r == Err(Output)
  {
    hide Pair;
    ghost var sent := writer.out[..writer.at];
    r := PutLead(writer, last);
    if r.Ok? {
      r := writer.Bytes(Pair(|piece|));
    }
    if r.Ok? {
      r := writer.Bytes(Pair(0xFFFF - |piece|));
    }
    if r.Ok? {
      r := writer.Bytes(piece);
    }
    if r.Ok? {
      var a, b, c := [if last then 1 else 0], Pair(|piece|), Pair(0xFFFF - |piece|);
      assert (((sent + a) + b) + c) + piece == sent + (a + (b + (c + piece)));
    }
  }

  /** Writes `StoredBytes(input)`. It takes exactly `StoredLength` bytes,
      and fails exactly when there are not as many. */
  method Store(input: seq<Byte>, out: array<Byte>) returns (r: Result<nat, Error>)
    modifies out
    ensures r.Ok? <==> StoredLength(|input|) <= out.Length
    ensures r.Ok? ==> r.value == StoredLength(|input|) && out[..r.value] == StoredBytes(input)
    ensures r.Err? ==> r == Err(Output)
  {
    hide BlockBytes, StoredLength, BytesBits, ToBits, StoredBytes, PieceLength;
    StoredBytesLength(input);
    var writer := new Writer(out);
    var at: nat := 0;
    var done := false;
    assert input[0..] == input;
    assert out[..0] == [];
    while !done
      invariant writer.Valid() && writer.count == 0 && writer.out == out && fresh(writer)
      invariant at <= |input|
      invariant !done ==> out[..writer.at] + StoredBytes(input[at..]) == StoredBytes(input)
      invariant done ==> out[..writer.at] == StoredBytes(input)
      decreases !done, |input| - at
    {
      ghost var sent, rest := out[..writer.at], input[at..];
      StoredStep(rest);
      var end := at + PieceLength(|input| - at);
      var piece, last := input[at..end], end >= |input|;
      assert piece == rest[..end - at] && input[end..] == rest[end - at..];
      ghost var block := BlockBytes(last, piece);
      ghost var more := if last then [] else StoredBytes(input[end..]);
      assert StoredBytes(input) == sent + (block + more);
      var put := PutBlock(writer, last, piece);
      if put.Err? {
        return Err(put.error);
      }
      Regroup(sent, block, more);
      at, done := end, last;
    }
    ghost var bytes := out[..writer.at];
    assert writer.Content() == BytesBits(bytes) + [];
    r := writer.Finish();
    BytesBitsInjective(out[..r.value], bytes);
  }

  lemma Regroup(x: seq<Byte>, y: seq<Byte>, z: seq<Byte>)
    ensures (x + y) + z == x + (y + z) && |x + (y + z)| == |x| + |y| + |z| && (x + y) + [] == x + y
  {
  }

  lemma StoredStep(input: seq<Byte>)
    ensures var n := PieceLength(|input|);
      StoredBytes(input)
      == BlockBytes(n == |input|, input[..n]) + if n == |input| then [] else StoredBytes(input[n..])
    ensures |StoredBytes(input)| >= 5
  {
    hide BlockBytes;
  }

  /** The lesser of what coding and what storing the input takes. */
  function CompressedLength(input: seq<Byte>): (n: nat)
    ensures n <= StoredLength(|input|)
  {
    var coded, plain := DeflatedLength(input), StoredLength(|input|);
    if coded < plain then coded else plain
  }

  /** The stream is the one block of the greedy steps. */
  ghost predicate IsCoded(stream: seq<Byte>, input: seq<Byte>) {
    exists symbols: seq<Symbol> ::
      StreamOf(stream, [Fixed(symbols)], input) && AllWritable(symbols) && TokensOf(symbols) == Greedy(input, 0)
  }

  /** Compresses the input, or stores it when coding would not be shorter. What is written reads
      back as the input, it takes the lesser of the two lengths, and there is no failing with room
      for that. */
  method Compress(input: seq<Byte>, out: array<Byte>, scratch: Scratch) returns (r: Result<nat, Error>)
    requires scratch.Valid()
    modifies out, scratch.head, scratch.prev
    ensures r == if CompressedLength(input) <= out.Length then Ok(CompressedLength(input)) else Err(Output)
    ensures StoredLength(|input|) <= out.Length ==> r.Ok?
    ensures r.Ok? ==> ReadsBack(out[..r.value], input)
    ensures r.Ok? ==>
      if DeflatedLength(input) < StoredLength(|input|) then IsCoded(out[..r.value], input)
      else out[..r.value] == StoredBytes(input)
  {
    hide StoredLength, DeflatedLength, TokensOf, Greedy, AllWritable, StoredBytes, StoredBlocks, StreamOf, ReadsBack;
    var plain := StoredLength(|input|);
    var coded;
    ghost var symbols;
    coded, symbols := Deflater.Deflate(input, out, scratch);
    if coded.Ok? && coded.value < plain {
      StreamReadsBack(out[..coded.value], [Fixed(symbols)], input);
      return coded;
    }
    r := Store(input, out);
    if r.Ok? {
      StoredStream(input);
      StreamReadsBack(out[..r.value], StoredBlocks(input), input);
    }
  }

  /** Whatever room there is, inflating gives the input, or says that it does not fit. */
  ghost predicate ReadsBack(stream: seq<Byte>, input: seq<Byte>) {
    forall room: nat :: Inflated(stream, room) == if |input| <= room then Ok(input) else Err(Output)
  }

  lemma StreamReadsBack(stream: seq<Byte>, blocks: seq<Block>, input: seq<Byte>)
    requires StreamOf(stream, blocks, input)
    ensures ReadsBack(stream, input)
  {
    hide StreamOf, Inflated;
    forall room: nat
      ensures Inflated(stream, room) == if |input| <= room then Ok(input) else Err(Output)
    {
      if |input| <= room {
        InflatesExactly(stream, room, input);
      } else {
        InflateLacksRoom(stream, blocks, input, room);
      }
    }
  }
}
