/** The format itself: the streams of RFC 1951 as data, what is written for each part of them,
    and what they stand for. Nothing here says how a stream is read. */
module DeflateFormat {
  import opened Words
  import opened BitStrings
  import opened Wrappers
  import opened HuffmanCode
  import opened Huffman
  import opened DeflateTables
  import opened InflateSpec

  /** One step of a coded block: a byte, or a length and a distance as codes and extra bits. */
  datatype Symbol = Literal(byte: Byte) | Match(length: Written, distance: Written)

  /** A length code of the run-length coded lengths. `more` is the number its extra bits hold. */
  datatype LengthRun = Plain(length: nat) | Previous(more: nat) | Zeros(more: nat) | ManyZeros(more: nat)

  /** How a block describes its own codes: the lengths of the code length code in their permuted
      order, the run-length coded lengths, and how many of them belong to the literal alphabet. */
  datatype Header = Header(order: seq<nat>, runs: seq<LengthRun>, literals: nat)

  datatype Block =
    | Stored(padding: seq<bool>, bytes: seq<Byte>)
    | Fixed(symbols: seq<Symbol>)
    | Dynamic(header: Header, symbols: seq<Symbol>)

  // ---------- what is written ----------

  /** The code is in the table, and the extra bits fit. */
  ghost predicate Writable(table: seq<Entry>, w: Written) {
    var e := Find(table, w.code);
    e.Some? && e.value.extra == w.extra && w.value < Pow2(w.extra)
  }

  ghost function Number(table: seq<Entry>, w: Written): (n: nat)
    requires Writable(table, w)
  {
    Find(table, w.code).value.base + w.value
  }

  ghost predicate Encodable(literals: seq<nat>, distances: seq<nat>, s: Symbol) {
    match s
    case Literal(byte) => Coded(literals, byte)
    case Match(length, distance) =>
      && Writable(LENGTHS, length) && Coded(literals, length.code) && length.code > END_OF_BLOCK
      && Writable(DISTANCE_CODES, distance) && Coded(distances, distance.code)
  }

  ghost function SymbolEncoding(literals: seq<nat>, distances: seq<nat>, s: Symbol): (bits: seq<bool>)
    requires Encodable(literals, distances, s)
  {
    match s
    case Literal(byte) => SymbolBits(literals, byte)
    case Match(length, distance) =>
      SymbolBits(literals, length.code) + (ToBits(length.value, length.extra)
        + (SymbolBits(distances, distance.code) + ToBits(distance.value, distance.extra)))
  }

  ghost predicate BodyEncodable(literals: seq<nat>, distances: seq<nat>, symbols: seq<Symbol>) {
    Coded(literals, END_OF_BLOCK) &&
    forall i | 0 <= i < |symbols| :: Encodable(literals, distances, symbols[i])
  }

  ghost function BodyEncoding(literals: seq<nat>, distances: seq<nat>, symbols: seq<Symbol>): (bits: seq<bool>)
    requires BodyEncodable(literals, distances, symbols)
  {
    if symbols == [] then SymbolBits(literals, END_OF_BLOCK)
    else SymbolEncoding(literals, distances, symbols[0])
         + BodyEncoding(literals, distances, symbols[1..])
  }

  ghost function StoredEncoding(padding: seq<bool>, bytes: seq<Byte>): (bits: seq<bool>)
    requires |bytes| <= 0xFFFF
  {
    padding + (ToBits(|bytes|, 16) + (ToBits(0xFFFF - |bytes|, 16) + BytesBits(bytes)))
  }

  function OrderEncoding(order: seq<nat>): (bits: seq<bool>)
    ensures |bits| == 3 * |order|
  {
    if order == [] then [] else ToBits(order[0], 3) + OrderEncoding(order[1..])
  }

  /** The lengths the code length alphabet gets from what is written in `ORDER`. */
  function Ordered(order: seq<nat>, i: nat, lengths: seq<nat>): (r: seq<nat>)
    requires i + |order| <= CODE_LENGTHS && |lengths| == CODE_LENGTHS
    ensures |r| == CODE_LENGTHS
    decreases |order|
  {
    if order == [] then lengths
    else Ordered(order[1..], i + 1, lengths[Place(i) := order[0]])
  }

  function RunSymbol(run: LengthRun): (symbol: nat) {
    match run
    case Plain(length) => length
    case Previous(_) => 16
    case Zeros(_) => 17
    case ManyZeros(_) => 18
  }

  function RunExtra(run: LengthRun): (bits: seq<bool>) {
    match run
    case Plain(_) => []
    case Previous(more) => ToBits(more, 2)
    case Zeros(more) => ToBits(more, 3)
    case ManyZeros(more) => ToBits(more, 7)
  }

  ghost predicate RunEncodable(code: seq<nat>, run: LengthRun) {
    Coded(code, RunSymbol(run)) &&
    match run
    case Plain(length) => length <= 15
    case Previous(more) => more < Pow2(2)
    case Zeros(more) => more < Pow2(3)
    case ManyZeros(more) => more < Pow2(7)
  }

  ghost predicate RunsEncodable(code: seq<nat>, runs: seq<LengthRun>) {
    forall i | 0 <= i < |runs| :: RunEncodable(code, runs[i])
  }

  ghost function RunsEncoding(code: seq<nat>, runs: seq<LengthRun>): (bits: seq<bool>)
    requires RunsEncodable(code, runs)
  {
    if runs == [] then []
    else SymbolBits(code, RunSymbol(runs[0])) + (RunExtra(runs[0]) + RunsEncoding(code, runs[1..]))
  }

  /** What one entry adds to the lengths before it. */
  function RunMeaning(run: LengthRun, done: seq<nat>): (r: Option<Times>) {
    match run
    case Plain(length) => Some(Times(length, 1))
    case Previous(more) => if done == [] then None else Some(Times(done[|done| - 1], 3 + more))
    case Zeros(more) => Some(Times(0, 3 + more))
    case ManyZeros(more) => Some(Times(0, 11 + more))
  }

  /** The lengths a list of entries stands for, after those in `done`. */
  function RunsMeaning(runs: seq<LengthRun>, done: seq<nat>): (r: Option<seq<nat>>) {
    if runs == [] then Some(done)
    else
      var t := RunMeaning(runs[0], done);
      if t.None? then None
      else RunsMeaning(runs[1..], done + Run(t.value.length, t.value.times))
  }

  /** The code length code of a header. */
  function HeaderCode(h: Header): (code: seq<nat>)
    requires |h.order| <= CODE_LENGTHS
  {
    Ordered(h.order, 0, Run(0, CODE_LENGTHS))
  }

  /** All the lengths of a header, those of the literals first. */
  function HeaderLengths(h: Header): (lengths: seq<nat>) {
    var all := RunsMeaning(h.runs, []);
    if all.Some? then all.value else []
  }

  function LiteralLengths(h: Header): (lengths: seq<nat>)
    requires h.literals <= |HeaderLengths(h)|
  {
    HeaderLengths(h)[..h.literals]
  }

  function DistanceLengths(h: Header): (lengths: seq<nat>)
    requires h.literals <= |HeaderLengths(h)|
  {
    HeaderLengths(h)[h.literals..]
  }

  ghost predicate ValidHeader(h: Header) {
    && 4 <= |h.order| <= CODE_LENGTHS
    && (forall i | 0 <= i < |h.order| :: h.order[i] < Pow2(3))
    && Accepts(HeaderCode(h), false)
    && RunsEncodable(HeaderCode(h), h.runs)
    && RunsMeaning(h.runs, []).Some?
    && 257 <= h.literals <= LITERALS
    && 1 <= |HeaderLengths(h)| - h.literals <= DISTANCES
    && Accepts(LiteralLengths(h), false) && Accepts(DistanceLengths(h), true)
  }

  ghost function HeaderEncoding(h: Header): (bits: seq<bool>)
    requires ValidHeader(h)
  {
    ToBits(h.literals - 257, 5)
      + (ToBits(|HeaderLengths(h)| - h.literals - 1, 5)
      + (ToBits(|h.order| - 4, 4) + (OrderEncoding(h.order) + RunsEncoding(HeaderCode(h), h.runs))))
  }

  ghost predicate BlockEncodable(block: Block, pos: nat) {
    match block
    case Stored(padding, bytes) => |padding| == Aligned(pos) - pos && |bytes| <= 0xFFFF
    case Fixed(symbols) => BodyEncodable(FixedLiteralLengths(), FixedDistanceLengths(), symbols)
    case Dynamic(header, symbols) =>
      ValidHeader(header) && BodyEncodable(LiteralLengths(header), DistanceLengths(header), symbols)
  }

  function Kind(block: Block): (k: nat) {
    match block
    case Stored(_, _) => 0
    case Fixed(_) => 1
    case Dynamic(_, _) => 2
  }

  /** A block whose kind has been written up to `pos`. */
  ghost function BlockEncoding(block: Block, pos: nat): (bits: seq<bool>)
    requires BlockEncodable(block, pos)
  {
    match block
    case Stored(padding, bytes) => StoredEncoding(padding, bytes)
    case Fixed(symbols) => BodyEncoding(FixedLiteralLengths(), FixedDistanceLengths(), symbols)
    case Dynamic(header, symbols) =>
      HeaderEncoding(header) + BodyEncoding(LiteralLengths(header), DistanceLengths(header), symbols)
  }

  ghost predicate Encodes(blocks: seq<Block>, pos: nat)
    decreases |blocks|
  {
    hide BlockEncodable, BlockEncoding;
    && blocks != []
    && BlockEncodable(blocks[0], pos + 3)
    && (|blocks| > 1 ==> Encodes(blocks[1..], pos + 3 + |BlockEncoding(blocks[0], pos + 3)|))
  }

  /** A stream whose first block starts at `pos`. */
  ghost function StreamEncoding(blocks: seq<Block>, pos: nat): (bits: seq<bool>)
    requires Encodes(blocks, pos)
    decreases |blocks|
  {
    hide BlockEncodable, BlockEncoding;
    var body := BlockEncoding(blocks[0], pos + 3);
    ToBits(if |blocks| == 1 then 1 else 0, 1) + (ToBits(Kind(blocks[0]), 2)
      + (body + if |blocks| == 1 then [] else StreamEncoding(blocks[1..], pos + 3 + |body|)))
  }

  // ---------- what it stands for ----------

  /** The bytes after one symbol; nothing when it reaches back too far. */
  ghost function SymbolMeaning(s: Symbol, out: seq<Byte>): (r: Option<seq<Byte>>)
    requires s.Match? ==> Writable(LENGTHS, s.length) && Writable(DISTANCE_CODES, s.distance)
    ensures r.Some? ==> out <= r.value
  {
    match s
    case Literal(byte) => Some(out + [byte])
    case Match(length, distance) =>
      var d := Number(DISTANCE_CODES, distance);
      DistanceIsPositive(distance.code);
      if d <= |out| then Some(CopyBack(out, d, Number(LENGTHS, length))) else None
  }

  ghost predicate AllWritable(symbols: seq<Symbol>) {
    forall i | 0 <= i < |symbols| && symbols[i].Match? ::
      Writable(LENGTHS, symbols[i].length) && Writable(DISTANCE_CODES, symbols[i].distance)
  }

  ghost function BodyMeaning(symbols: seq<Symbol>, out: seq<Byte>): (r: Option<seq<Byte>>)
    requires AllWritable(symbols)
    ensures r.Some? ==> out <= r.value
  {
    if symbols == [] then Some(out)
    else
      var next := SymbolMeaning(symbols[0], out);
      if next.None? then None else BodyMeaning(symbols[1..], next.value)
  }

  ghost function BlockMeaning(block: Block, out: seq<Byte>): (r: Option<seq<Byte>>)
    requires !block.Stored? ==> AllWritable(block.symbols)
    ensures r.Some? ==> out <= r.value
  {
    match block
    case Stored(_, bytes) => Some(out + bytes)
    case Fixed(symbols) => BodyMeaning(symbols, out)
    case Dynamic(_, symbols) => BodyMeaning(symbols, out)
  }

  ghost function StreamMeaning(blocks: seq<Block>, out: seq<Byte>): (r: Option<seq<Byte>>)
    requires forall i | 0 <= i < |blocks| && !blocks[i].Stored? :: AllWritable(blocks[i].symbols)
    ensures r.Some? ==> out <= r.value
  {
    if blocks == [] then Some(out)
    else
      var next := BlockMeaning(blocks[0], out);
      if next.None? then None else StreamMeaning(blocks[1..], next.value)
  }
}
