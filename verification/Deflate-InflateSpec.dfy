/** What a DEFLATE stream stands for, as a decoder finds out: a function of the bits and of the
    room there is for the result. */
module InflateSpec {
  import opened Words
  import opened BitStrings
  import opened Wrappers
  import opened DeflateErrors
  import opened Huffman
  import opened DeflateTables

  const CODE_LENGTHS := 19

  /** Which symbol the lengths of section 3.2.7 of RFC 1951 are for, in the order they come. */
  const ORDER: seq<nat> := [16, 17, 18, 0, 8, 7, 9, 6, 10, 5, 11, 4, 12, 3, 13, 2, 14, 1, 15]

  /** Where the code length written as number `i` belongs. */
  function Place(i: nat): (symbol: nat)
    requires i < CODE_LENGTHS
    ensures symbol < CODE_LENGTHS
  {
    ORDER[i]
  }

  /** A number of `n` bits, least significant first. */
  function Field(b: seq<bool>, pos: nat, n: nat): (r: Result<Taken<nat>, Error>)
    ensures r.Ok? ==> r.value.end == pos + n <= |b| && r.value.item < Pow2(n)
    ensures r.Err? ==> r == Err(Input)
  {
    if pos + n <= |b| then Ok(Taken(FromBits(b[pos..pos + n]), pos + n)) else Err(Input)
  }

  /** `length` bytes, each copied from `distance` bytes before it. */
  function CopyBack(out: seq<Byte>, distance: nat, length: nat): (r: seq<Byte>)
    requires 1 <= distance <= |out|
    ensures |r| == |out| + length && out <= r
    decreases length
  {
    if length == 0 then out
    else CopyBack(out + [out[|out| - distance]], distance, length - 1)
  }

  /** How far back a reference reaches and how much it copies. */
  datatype Back = Back(length: nat, distance: nat)

  /** The extra bits of a length code, and the distance after them. */
  function Reference(b: seq<bool>, pos: nat, symbol: nat, distances: Tree): (r: Result<Taken<Back>, Error>)
    requires WellFormed(distances)
    ensures r.Ok? ==> pos < r.value.end <= |b| && r.value.item.distance >= 1
    ensures r.Err? ==> r == Err(Input)
  {
    var entry := LengthOf(symbol);
    if entry.None? then Err(Input) else
    var extra :- Field(b, pos, entry.value.extra);
    var code :- Decode(distances, b, extra.end);
    var far := DistanceOf(code.item);
    if far.None? then Err(Input) else
    var more :- Field(b, code.end, far.value.extra);
    DistanceIsPositive(code.item);
    Ok(Taken(Back(entry.value.base + extra.item, far.value.base + more.item), more.end))
  }

  lemma DistanceIsPositive(code: nat)
    requires DistanceOf(code).Some?
    ensures DistanceOf(code).value.base >= 1
  {
    FindSound(DISTANCE_CODES, code);
    var i :| 0 <= i < |DISTANCE_CODES| && DISTANCE_CODES[i] == DistanceOf(code).value;
    TablesAreLadders();
    LadderRises(DISTANCE_CODES, 0, 0, i);
  }

  /** Symbols until the one that ends a block; `out` is what there is so far. */
  function CodedBlock(b: seq<bool>, pos: nat, out: seq<Byte>, room: nat, literals: Tree, distances: Tree)
    : (r: Result<Taken<seq<Byte>>, Error>)
    requires WellFormed(literals) && WellFormed(distances)
    ensures r.Ok? ==> pos < r.value.end <= |b| && out <= r.value.item
    ensures r.Ok? && |out| <= room ==> |r.value.item| <= room
    decreases |b| - pos
  {
    var symbol :- Decode(literals, b, pos);
    if symbol.item == END_OF_BLOCK then Ok(Taken(out, symbol.end))
    else if symbol.item < END_OF_BLOCK then
      if |out| >= room then Err(Output)
      else CodedBlock(b, symbol.end, out + [symbol.item], room, literals, distances)
    else
      var back :- Reference(b, symbol.end, symbol.item, distances);
      if back.item.distance > |out| then Err(Input)
      else if |out| + back.item.length > room then Err(Output)
      else CodedBlock(b, back.end, CopyBack(out, back.item.distance, back.item.length), room,
                      literals, distances)
  }

  /** `n` whole bytes. */
  function BytesAt(b: seq<bool>, pos: nat, n: nat): (bytes: seq<Byte>)
    requires pos + 8 * n <= |b|
    ensures |bytes| == n
  {
    Pow2Values();
    seq(n, i requires 0 <= i < n =>
      assert |b[pos + 8 * i..pos + 8 * i + 8]| == 8;
      FromBits(b[pos + 8 * i..pos + 8 * i + 8]))
  }

  function Aligned(pos: nat): (p: nat)
    ensures pos <= p < pos + 8
  {
    (pos + 7) / 8 * 8
  }

  /** A stored block behind its header: section 3.2.4 of RFC 1951. */
  function StoredBlock(b: seq<bool>, pos: nat, out: seq<Byte>, room: nat): (r: Result<Taken<seq<Byte>>, Error>)
    ensures r.Ok? ==> pos < r.value.end <= |b| && out <= r.value.item && |r.value.item| <= room
  {
    var length :- Field(b, Aligned(pos), 16);
    var complement :- Field(b, length.end, 16);
    if length.item + complement.item != 0xFFFF then Err(Input)
    else
      var end := complement.end + 8 * length.item;
      if end > |b| then Err(Input)
      else if |out| + length.item > room then Err(Output)
      else Ok(Taken(out + BytesAt(b, complement.end, length.item), end))
  }

  /** Lengths `i` up to `count`, three bits each, put where `ORDER` says. */
  function CodeLengths(b: seq<bool>, pos: nat, i: nat, count: nat, lengths: seq<nat>)
    : (r: Result<Taken<seq<nat>>, Error>)
    requires i <= count <= CODE_LENGTHS && |lengths| == CODE_LENGTHS
    ensures r.Ok? ==> r.value.end == pos + 3 * (count - i)
    ensures r.Ok? && i < count ==> r.value.end <= |b|
    ensures r.Ok? ==> |r.value.item| == CODE_LENGTHS
    ensures r.Err? ==> r == Err(Input)
    decreases count - i
  {
    if i == count then Ok(Taken(lengths, pos))
    else
      var length :- Field(b, pos, 3);
      CodeLengths(b, length.end, i + 1, count, lengths[Place(i) := length.item])
  }

  /** One entry of the run-length coded lengths: a length, and how often it stands. */
  datatype Times = Times(length: nat, times: nat)

  function Repeated(b: seq<bool>, pos: nat, symbol: nat, done: seq<nat>): (r: Result<Taken<Times>, Error>)
    ensures r.Ok? ==> pos <= r.value.end && (r.value.end <= |b| || r.value.end == pos)
    ensures r.Ok? ==> r.value.item.times >= 1
    ensures r.Err? ==> r == Err(Input)
  {
    if symbol <= 15 then Ok(Taken(Times(symbol, 1), pos))
    else if symbol == 16 then
      if done == [] then Err(Input)
      else
        var more :- Field(b, pos, 2);
        Ok(Taken(Times(done[|done| - 1], 3 + more.item), more.end))
    else if symbol == 17 then
      var more :- Field(b, pos, 3);
      Ok(Taken(Times(0, 3 + more.item), more.end))
    else if symbol == 18 then
      var more :- Field(b, pos, 7);
      Ok(Taken(Times(0, 11 + more.item), more.end))
    else Err(Input)
  }

  /** The run-length coded lengths behind `done`, until there are `total`. */
  function LengthRuns(b: seq<bool>, pos: nat, t: Tree, total: nat, done: seq<nat>)
    : (r: Result<Taken<seq<nat>>, Error>)
    requires WellFormed(t) && |done| <= total
    ensures r.Ok? ==> |r.value.item| == total && pos <= r.value.end
    ensures r.Ok? && pos <= |b| ==> r.value.end <= |b|
    ensures r.Err? ==> r == Err(Input)
    decreases total - |done|
  {
    if |done| == total then Ok(Taken(done, pos))
    else
      var symbol :- Decode(t, b, pos);
      var run :- Repeated(b, symbol.end, symbol.item, done);
      if |done| + run.item.times > total then Err(Input)
      else LengthRuns(b, run.end, t, total, done + Run(run.item.length, run.item.times))
  }

  datatype Trees = Trees(literals: Tree, distances: Tree)

  function TreesOf(literals: seq<nat>, distances: seq<nat>): (r: Result<Trees, Error>)
    requires |literals| <= LITERALS && |distances| <= DISTANCES
    ensures r.Ok? ==> WellFormed(r.value.literals) && WellFormed(r.value.distances)
    ensures r.Err? ==> r == Err(Input)
  {
    if !Accepts(literals, false) || !Accepts(distances, true) then Err(Input)
    else Ok(Trees(TreeOf(literals, LITERALS), TreeOf(distances, DISTANCES)))
  }

  /** Both trees, from the `codes` lengths of the code length code on: of `total` lengths the first
      `split` are those of literals. */
  function TablesFrom(b: seq<bool>, pos: nat, split: nat, total: nat, codes: nat): (r: Result<Taken<Trees>, Error>)
    requires 1 <= codes <= CODE_LENGTHS && split <= LITERALS && split <= total <= split + DISTANCES
    ensures r.Ok? ==> pos < r.value.end <= |b|
    ensures r.Ok? ==> WellFormed(r.value.item.literals) && WellFormed(r.value.item.distances)
    ensures r.Err? ==> r == Err(Input)
  {
    var lengths :- CodeLengths(b, pos, 0, codes, Run(0, CODE_LENGTHS));
    if !Accepts(lengths.item, false) then Err(Input)
    else
      var all :- LengthRuns(b, lengths.end, TreeOf(lengths.item, CODE_LENGTHS), total, []);
      var trees :- TreesOf(all.item[..split], all.item[split..]);
      Ok(Taken(trees, all.end))
  }

  /** Both trees of a dynamic block, from its three counts on. */
  function Tables(b: seq<bool>, pos: nat): (r: Result<Taken<Trees>, Error>)
    ensures r.Ok? ==> pos < r.value.end <= |b|
    ensures r.Ok? ==> WellFormed(r.value.item.literals) && WellFormed(r.value.item.distances)
    ensures r.Err? ==> r == Err(Input)
  {
    var literals :- Field(b, pos, 5);
    var distances :- Field(b, literals.end, 5);
    var codes :- Field(b, distances.end, 4);
    Powers();
    var split := literals.item + 257;
    TablesFrom(b, codes.end, split, split + distances.item + 1, codes.item + 4)
  }

  function FixedTrees(): (t: Trees)
    ensures WellFormed(t.literals) && WellFormed(t.distances)
  {
    Trees(TreeOf(FixedLiteralLengths(), LITERALS), TreeOf(FixedDistanceLengths(), DISTANCES))
  }

  /** A block behind its header. */
  function BlockFrom(kind: nat, b: seq<bool>, pos: nat, out: seq<Byte>, room: nat)
    : (r: Result<Taken<seq<Byte>>, Error>)
    ensures r.Ok? ==> pos < r.value.end <= |b| && out <= r.value.item
    ensures r.Ok? && |out| <= room ==> |r.value.item| <= room
  {
    if kind == 0 then StoredBlock(b, pos, out, room)
    else if kind == 1 then CodedBlock(b, pos, out, room, FixedTrees().literals, FixedTrees().distances)
    else if kind == 2 then DynamicBlock(b, pos, out, room)
    else Err(Input)
  }

  /** The rest of a stream, from the start of a block. */
  function InflateFrom(b: seq<bool>, pos: nat, out: seq<Byte>, room: nat): (r: Result<seq<Byte>, Error>)
    ensures r.Ok? && |out| <= room ==> out <= r.value && |r.value| <= room
    decreases |b| - pos
  {
    var last :- Field(b, pos, 1);
    var kind :- Field(b, last.end, 2);
    var block :- BlockFrom(kind.item, b, kind.end, out, room);
    if last.item == 1 then Ok(block.item) else InflateFrom(b, block.end, block.item, room)
  }

  /** Tables, and a coded block in their codes. */
  function DynamicBlock(b: seq<bool>, pos: nat, out: seq<Byte>, room: nat): (r: Result<Taken<seq<Byte>>, Error>)
    ensures r.Ok? ==> pos < r.value.end <= |b| && out <= r.value.item
    ensures r.Ok? && |out| <= room ==> |r.value.item| <= room
  {
    var trees :- Tables(b, pos);
    CodedBlock(b, trees.end, out, room, trees.item.literals, trees.item.distances)
  }

  /** What a stream stands for, when there is `room` for it. */
  function Inflated(input: seq<Byte>, room: nat): (r: Result<seq<Byte>, Error>)
    ensures r.Ok? ==> |r.value| <= room
  {
    InflateFrom(BytesBits(input), 0, [], room)
  }
}
