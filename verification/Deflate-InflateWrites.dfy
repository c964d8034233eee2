/** What the decoder has written when it answers, whether it accepts a stream or not. */
module InflateWrites {
  import opened Words
  import opened BitStrings
  import opened Wrappers
  import opened DeflateErrors
  import opened Huffman
  import opened DeflateTables
  import opened InflateSpec

  /** The bytes there are when a coded block ends or is refused; a copy runs until the room is used up. */
  function CodedWrites(b: seq<bool>, pos: nat, out: seq<Byte>, room: nat, literals: Tree, distances: Tree)
    : (w: seq<Byte>)
    requires WellFormed(literals) && WellFormed(distances) && |out| <= room
    ensures out <= w && |w| <= room
    ensures var r := CodedBlock(b, pos, out, room, literals, distances);
      r.Ok? ==> w == r.value.item
    decreases |b| - pos
  {
    var symbol := Decode(literals, b, pos);
    if symbol.Err? || symbol.value.item == END_OF_BLOCK then out
    else if symbol.value.item < END_OF_BLOCK then
      if |out| >= room then out
      else CodedWrites(b, symbol.value.end, out + [symbol.value.item], room, literals, distances)
    else
      var back := Reference(b, symbol.value.end, symbol.value.item, distances);
      if back.Err? || back.value.item.distance > |out| then out
      else
        var Back(length, distance) := back.value.item;
        if |out| + length > room then CopyBack(out, distance, room - |out|)
        else CodedWrites(b, back.value.end, CopyBack(out, distance, length), room, literals, distances)
  }

  /** A stored block is written whole or not at all. */
  function StoredWrites(b: seq<bool>, pos: nat, out: seq<Byte>, room: nat): (w: seq<Byte>)
    requires |out| <= room
    ensures out <= w && |w| <= room
  {
    var r := StoredBlock(b, pos, out, room);
    if r.Ok? then r.value.item else out
  }

  function DynamicWrites(b: seq<bool>, pos: nat, out: seq<Byte>, room: nat): (w: seq<Byte>)
    requires |out| <= room
    ensures out <= w && |w| <= room
    ensures DynamicBlock(b, pos, out, room).Ok? ==> w == DynamicBlock(b, pos, out, room).value.item
  {
    var trees := Tables(b, pos);
    if trees.Err? then out
    else CodedWrites(b, trees.value.end, out, room, trees.value.item.literals, trees.value.item.distances)
  }

  /** A block of any kind. */
  function BlockWrites(kind: nat, b: seq<bool>, pos: nat, out: seq<Byte>, room: nat): (w: seq<Byte>)
    requires |out| <= room
    ensures out <= w && |w| <= room
    ensures BlockFrom(kind, b, pos, out, room).Ok? ==> w == BlockFrom(kind, b, pos, out, room).value.item
  {
    if kind == 0 then StoredWrites(b, pos, out, room)
    else if kind == 1 then CodedWrites(b, pos, out, room, FixedTrees().literals, FixedTrees().distances)
    else if kind == 2 then DynamicWrites(b, pos, out, room)
    else out
  }

  /** The rest of a stream, from the start of a block. */
  function WritesFrom(b: seq<bool>, pos: nat, out: seq<Byte>, room: nat): (w: seq<Byte>)
    requires |out| <= room
    ensures out <= w && |w| <= room
    ensures InflateFrom(b, pos, out, room).Ok? ==> w == InflateFrom(b, pos, out, room).value
    decreases |b| - pos
  {
    var last := Field(b, pos, 1);
    if last.Err? then out else
    var kind := Field(b, last.value.end, 2);
    if kind.Err? then out else
    var block := BlockFrom(kind.value.item, b, kind.value.end, out, room);
    var w := BlockWrites(kind.value.item, b, kind.value.end, out, room);
    if block.Err? || last.value.item == 1 then w else WritesFrom(b, block.value.end, w, room)
  }

  /** What is in the buffer when the decoder answers. */
  function Writes(input: seq<Byte>, room: nat): (w: seq<Byte>)
    ensures |w| <= room
    ensures Inflated(input, room).Ok? ==> w == Inflated(input, room).value
  {
    WritesFrom(BytesBits(input), 0, [], room)
  }

  // ---------- more room ----------

  lemma {:induction false} CopyBackMore(out: seq<Byte>, distance: nat, n: nat, m: nat)
    requires 1 <= distance <= |out| && n <= m
    ensures CopyBack(out, distance, n) <= CopyBack(out, distance, m)
    decreases n
  {
    if n > 0 {
      CopyBackMore(out + [out[|out| - distance]], distance, n - 1, m - 1);
    }
  }

  lemma {:induction false} CodedMore(b: seq<bool>, pos: nat, out: seq<Byte>, room: nat, more: nat, literals: Tree,
      distances: Tree)
    requires WellFormed(literals) && WellFormed(distances) && |out| <= room <= more
    ensures CodedWrites(b, pos, out, room, literals, distances) <= CodedWrites(b, pos, out, more, literals, distances)
    ensures var r := CodedBlock(b, pos, out, room, literals, distances);
      r != Err(Output) ==> CodedBlock(b, pos, out, more, literals, distances) == r
    decreases |b| - pos
  {
    hide Decode, Reference, CopyBack;
    var symbol := Decode(literals, b, pos);
    if symbol.Ok? && symbol.value.item < END_OF_BLOCK {
      if |out| < room {
        CodedMore(b, symbol.value.end, out + [symbol.value.item], room, more, literals, distances);
      }
    } else if symbol.Ok? && symbol.value.item > END_OF_BLOCK {
      var back := Reference(b, symbol.value.end, symbol.value.item, distances);
      if back.Ok? && back.value.item.distance <= |out| {
        var Back(length, distance) := back.value.item;
        if |out| + length > room {
          CopyBackMore(out, distance, room - |out|, if |out| + length > more then more - |out| else length);
        } else {
          CodedMore(b, back.value.end, CopyBack(out, distance, length), room, more, literals, distances);
        }
      }
    }
  }

  lemma BlockMore(kind: nat, b: seq<bool>, pos: nat, out: seq<Byte>, room: nat, more: nat)
    requires |out| <= room <= more
    ensures BlockWrites(kind, b, pos, out, room) <= BlockWrites(kind, b, pos, out, more)
    ensures var r := BlockFrom(kind, b, pos, out, room);
      r != Err(Output) ==> BlockFrom(kind, b, pos, out, more) == r
  {
    hide CodedBlock, CodedWrites, Tables, FixedTrees;
    if kind == 1 {
      CodedMore(b, pos, out, room, more, FixedTrees().literals, FixedTrees().distances);
    } else if kind == 2 && Tables(b, pos).Ok? {
      var trees := Tables(b, pos).value;
      CodedMore(b, trees.end, out, room, more, trees.item.literals, trees.item.distances);
    }
  }

  /** More room never changes a byte that was written, nor an answer other than the lack of room. */
  lemma {:induction false} MoreFrom(b: seq<bool>, pos: nat, out: seq<Byte>, room: nat, more: nat)
    requires |out| <= room <= more
    ensures WritesFrom(b, pos, out, room) <= WritesFrom(b, pos, out, more)
    ensures InflateFrom(b, pos, out, room) != Err(Output) ==>
              InflateFrom(b, pos, out, more) == InflateFrom(b, pos, out, room)
    decreases |b| - pos
  {
    hide BlockFrom, BlockWrites;
    var last := Field(b, pos, 1);
    if last.Ok? {
      var kind := Field(b, last.value.end, 2);
      if kind.Ok? {
        BlockMore(kind.value.item, b, kind.value.end, out, room, more);
        var block := BlockFrom(kind.value.item, b, kind.value.end, out, room);
        if block.Ok? && last.value.item != 1 {
          MoreFrom(b, block.value.end, block.value.item, room, more);
        }
      }
    }
  }

  lemma MoreRoom(input: seq<Byte>, room: nat, more: nat)
    requires room <= more
    ensures Writes(input, room) <= Writes(input, more)
    ensures Inflated(input, room) != Err(Output) ==> Inflated(input, more) == Inflated(input, room)
  {
    hide WritesFrom, InflateFrom;
    MoreFrom(BytesBits(input), 0, [], room, more);
  }

  // ---------- too little room ----------

  /** Room for one more block of any length it can have. */
  const LARGEST_BLOCK := 0xFFFF

  lemma {:induction false} CodedLacks(b: seq<bool>, pos: nat, out: seq<Byte>, room: nat, more: nat, literals: Tree,
      distances: Tree)
    requires WellFormed(literals) && WellFormed(distances) && |out| <= room < more
    ensures CodedBlock(b, pos, out, room, literals, distances) == Err(Output) <==>
              room < |CodedWrites(b, pos, out, more, literals, distances)|
    decreases |b| - pos
  {
    hide Decode, Reference, CopyBack;
    var symbol := Decode(literals, b, pos);
    if symbol.Ok? && symbol.value.item < END_OF_BLOCK {
      if |out| < room {
        CodedLacks(b, symbol.value.end, out + [symbol.value.item], room, more, literals, distances);
      }
    } else if symbol.Ok? && symbol.value.item > END_OF_BLOCK {
      var back := Reference(b, symbol.value.end, symbol.value.item, distances);
      if back.Ok? && back.value.item.distance <= |out| {
        var Back(length, distance) := back.value.item;
        if |out| + length <= room {
          CodedLacks(b, back.value.end, CopyBack(out, distance, length), room, more, literals, distances);
        }
      }
    }
  }

  lemma StoredLacks(b: seq<bool>, pos: nat, out: seq<Byte>, room: nat)
    requires |out| <= room
    ensures StoredBlock(b, pos, out, room) == Err(Output) <==>
              room < |StoredWrites(b, pos, out, room + LARGEST_BLOCK)|
  {
    hide BytesAt, FromBits;
    var length := Field(b, Aligned(pos), 16);
    assert length.Ok? ==> length.value.item < 0x10000 by {
      Pow2Values();
      assert Pow2(16) == 2 * Pow2(15);
    }
  }

  lemma BlockLacks(kind: nat, b: seq<bool>, pos: nat, out: seq<Byte>, room: nat)
    requires |out| <= room
    ensures BlockFrom(kind, b, pos, out, room) == Err(Output) <==>
              room < |BlockWrites(kind, b, pos, out, room + LARGEST_BLOCK)|
  {
    hide CodedBlock, CodedWrites, Tables, FixedTrees, StoredBlock, StoredWrites;
    var more := room + LARGEST_BLOCK;
    if kind == 0 {
      StoredLacks(b, pos, out, room);
    } else if kind == 1 {
      CodedLacks(b, pos, out, room, more, FixedTrees().literals, FixedTrees().distances);
    } else if kind == 2 && Tables(b, pos).Ok? {
      var trees := Tables(b, pos).value;
      CodedLacks(b, trees.end, out, room, more, trees.item.literals, trees.item.distances);
    }
  }

  lemma {:induction false} FromLacks(b: seq<bool>, pos: nat, out: seq<Byte>, room: nat)
    requires |out| <= room
    ensures InflateFrom(b, pos, out, room) == Err(Output) <==>
              room < |WritesFrom(b, pos, out, room + LARGEST_BLOCK)|
    decreases |b| - pos
  {
    hide BlockFrom, BlockWrites;
    var more := room + LARGEST_BLOCK;
    var last := Field(b, pos, 1);
    if last.Ok? {
      var kind := Field(b, last.value.end, 2);
      if kind.Ok? {
        BlockMore(kind.value.item, b, kind.value.end, out, room, more);
        BlockLacks(kind.value.item, b, kind.value.end, out, room);
        var block := BlockFrom(kind.value.item, b, kind.value.end, out, room);
        if block.Ok? && last.value.item != 1 {
          FromLacks(b, block.value.end, block.value.item, room);
        }
      }
    }
  }

  /** Room is what is lacking exactly when the decoder would write more than there is room for. */
  lemma LacksRoomExactly(input: seq<Byte>, room: nat)
    ensures Inflated(input, room) == Err(Output) <==> room < |Writes(input, room + LARGEST_BLOCK)|
  {
    hide WritesFrom, InflateFrom;
    FromLacks(BytesBits(input), 0, [], room);
  }
}
