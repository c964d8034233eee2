/** The bit writer and the bit reader. */
module BitIO {
  import opened Words
  import opened BitStrings
  import opened Wrappers
  import opened DeflateErrors

  /** A count of bits above this one would not fit beside seven held bits in a 32-bit word. */
  const MAX_COUNT := 25

  /** The stream written so far is the whole bytes in `out` and, after them, the low `count` bits of
      `held`. New bits are joined to those by `|`; the two are disjoint, so it is a sum here. */
  class Writer {
    const out: array<Byte>
    var at: nat
    var held: nat
    var count: nat

    ghost predicate Valid()
      reads this
    {
      at <= out.Length && count < 8 && held < Pow2(count)
    }

    /** Everything written so far. */
    ghost function Content(): (bits: seq<bool>)
      requires Valid()
      reads this, out
      ensures |bits| == 8 * at + count
    {
      BytesBits(out[..at]) + ToBits(held, count)
    }

    constructor (out: array<Byte>)
      ensures Valid() && this.out == out && Content() == [] && at == 0 && count == 0
    {
      this.out := out;
      at, held, count := 0, 0, 0;
    }

    /** Moves `at` past the byte, which is all that changes. */
    method PutByte(b: Byte) returns (r: Result<(), Error>)
      requires at <= out.Length
      modifies this`at, out
      ensures r.Ok? <==> old(at) < out.Length
      ensures r.Ok? ==> at == old(at) + 1 && out[..at] == old(out[..at]) + [b]
      ensures r.Err? ==> r == Err(Output) && at == old(at) && out[..] == old(out[..])
    {
      if at >= out.Length {
        return Err(Output);
      }
      out[at] := b;
      at := at + 1;
      return Ok(());
    }

    /** Appends `ToBits(value, n)` to the stream. It is refused exactly when the whole bytes no longer
        fit the buffer. */
    method Bits(value: nat, n: nat) returns (r: Result<(), Error>)
      requires Valid() && n <= MAX_COUNT
      modifies this, out
      ensures r.Ok? <==> (old(|Content()|) + n) / 8 <= out.Length
      ensures r.Ok? ==> Valid() && Content() == old(Content()) + ToBits(value, n)
      ensures r.Err? ==> r == Err(Output)
    {
      hide ToBits, BytesBits, Shl, Shr, Low;
      ghost var after := Content() + ToBits(value, n);
      HeldBits(out[..at], held, count, value, n);
      held := held + Shl(Low(value, n), count);
      count := count + n;
      while count >= 8
        invariant at <= out.Length && held < Pow2(count)
        invariant BytesBits(out[..at]) + ToBits(held, count) == after
      {
        SentBits(out[..at], held, count);
        var sent := PutByte(Low(held, 8));
        if sent.Err? {
          return sent;
        }
        held := Shr(held, 8);
        count := count - 8;
      }
      return Ok(());
    }

    /** Appends `CodeBits(code, length)` to the stream, or refuses it for want of room. */
    method Code(code: nat, length: nat) returns (r: Result<(), Error>)
      requires Valid() && length <= MAX_COUNT
      modifies this, out
      ensures r.Ok? <==> (old(|Content()|) + length) / 8 <= out.Length
      ensures r.Ok? ==> Valid() && Content() == old(Content()) + CodeBits(code, length)
      ensures r.Err? ==> r == Err(Output)
    {
      var turned: nat := 0;
      var step := 0;
      while step < length
        invariant unchanged(this) && unchanged(out)
        invariant step <= length && turned < Pow2(step)
        invariant ToBits(turned, step) == CodeBits(code, length)[..step]
      {
        var bit := Shr(code, length - step - 1) % 2;
        CodeBitsAt(code, length, step);
        ToBitsConcat(turned, step, bit, 1);
        assert ToBits(bit, 1) == [bit == 1];
        turned := turned + Shl(bit, step);
        step := step + 1;
      }
      assert CodeBits(code, length)[..step] == CodeBits(code, length);
      r := Bits(turned, length);
    }

    /** Appends zero bits until the length of the stream is a multiple of eight. */
    method Align() returns (r: Result<(), Error>)
      requires Valid()
      modifies this, out
      ensures r.Ok? <==> (old(|Content()|) + 7) / 8 <= out.Length
      ensures r.Ok? ==> Valid() && count == 0
      ensures r.Ok? ==> Content() == old(Content()) + ToBits(0, (8 - old(count)) % 8)
      ensures r.Err? ==> r == Err(Output)
    {
      if count > 0 {
        var missing := 8 - count;
        r := Bits(0, missing);
        if r.Ok? {
          assert |Content()| % 8 == 0;
        }
      } else {
        assert Content() == Content() + ToBits(0, 0);
        r := Ok(());
      }
    }

    /** Appends the bits of `bytes` to a stream that ends at a byte. */
    method Bytes(bytes: seq<Byte>) returns (r: Result<(), Error>)
      requires Valid() && count == 0
      modifies this, out
      ensures r.Ok? <==> old(at) + |bytes| <= out.Length
      ensures r.Ok? ==> Valid() && count == 0 && at == old(at) + |bytes|
      ensures r.Ok? ==> out[..at] == old(out[..at]) + bytes
      ensures r.Err? ==> r == Err(Output)
    {
      ghost var before := out[..at];
      for i := 0 to |bytes|
        invariant Valid() && count == 0 && at == old(at) + i
        invariant out[..at] == before + bytes[..i]
      {
        var sent := PutByte(bytes[i]);
        if sent.Err? {
          return sent;
        }
      }
      return Ok(());
    }

    /** The first bytes of the buffer are then the stream, with zero bits up to the end of the last. */
    method Finish() returns (r: Result<nat, Error>)
      requires Valid()
      modifies this, out
      ensures r.Ok? <==> (old(|Content()|) + 7) / 8 <= out.Length
      ensures r.Ok? ==> r.value == (old(|Content()|) + 7) / 8 <= out.Length
      ensures r.Ok? ==>
        BytesBits(out[..r.value]) == old(Content()) + ToBits(0, 8 * r.value - old(|Content()|))
      ensures r.Err? ==> r == Err(Output)
    {
      var aligned := Align();
      if aligned.Err? {
        return Err(aligned.error);
      }
      assert Content() == BytesBits(out[..at]);
      return Ok(at);
    }
  }

  lemma HeldBits(sent: seq<Byte>, held: nat, count: nat, value: nat, n: nat)
    requires held < Pow2(count)
    ensures held + Shl(Low(value, n), count) < Pow2(count + n)
    ensures BytesBits(sent) + ToBits(held + Shl(Low(value, n), count), count + n)
         == BytesBits(sent) + ToBits(held, count) + ToBits(value, n)
  {
    ToBitsConcat(held, count, Low(value, n), n);
    ToBitsLow(value, n);
  }

  lemma SentBits(sent: seq<Byte>, held: nat, count: nat)
    requires held < Pow2(count) && 8 <= count
    ensures Low(held, 8) < 256 && Shr(held, 8) < Pow2(count - 8)
    ensures BytesBits(sent + [Low(held, 8)]) + ToBits(Shr(held, 8), count - 8)
         == BytesBits(sent) + ToBits(held, count)
  {
    Pow2Values();
    SplitByte(held, count - 8);
    BytesBitsAppend(sent, Low(held, 8));
    var x, y, z := BytesBits(sent), ToBits(Low(held, 8), 8), ToBits(Shr(held, 8), count - 8);
    assert (x + y) + z == x + (y + z);
  }

  lemma SplitByte(v: nat, m: nat)
    ensures ToBits(v, 8 + m) == ToBits(Low(v, 8), 8) + ToBits(Shr(v, 8), m)
    ensures v < Pow2(8 + m) ==> Shr(v, 8) < Pow2(m)
  {
    ToBitsSplit(v, 8, m);
  }

  /** The `length` low bits of a code, most significant first. */
  function CodeBits(code: nat, length: nat): (bits: seq<bool>)
    ensures |bits| == length
  {
    if length == 0 then [] else CodeBits(code / 2, length - 1) + [code % 2 == 1]
  }

  lemma {:induction false} CodeBitsAt(code: nat, length: nat, i: nat)
    requires i < length
    ensures CodeBits(code, length)[i] == (Shr(code, length - i - 1) % 2 == 1)
  {
    if i < length - 1 {
      CodeBitsAt(code / 2, length - 1, i);
    }
  }

  function BitAt(b: seq<bool>, pos: nat): (bit: nat)
    requires pos < |b|
  {
    if b[pos] then 1 else 0
  }

  lemma TakenBits(s: seq<Byte>, at: nat, held: nat, count: nat)
    requires at < |s| && count <= 8 * at && held < Pow2(count)
    requires ToBits(held, count) == BytesBits(s)[8 * at - count..8 * at]
    ensures held + Shl(s[at], count) < Pow2(count + 8)
    ensures ToBits(held + Shl(s[at], count), count + 8) == BytesBits(s)[8 * at - count..8 * at + 8]
  {
    ToBitsConcat(held, count, s[at], 8);
    BytesBitsAt(s, at);
    assert Pow2(8) == 256;
    var bits := BytesBits(s);
    assert bits[8 * at - count..8 * at] + bits[8 * at..8 * at + 8] == bits[8 * at - count..8 * at + 8];
  }

  lemma ReadBits(s: seq<Byte>, at: nat, held: nat, count: nat, n: nat)
    requires at <= |s| && n <= count <= 8 * at && held < Pow2(count)
    requires ToBits(held, count) == BytesBits(s)[8 * at - count..8 * at]
    ensures Shr(held, n) < Pow2(count - n)
    ensures Low(held, n) == FromBits(BytesBits(s)[8 * at - count..8 * at - count + n])
    ensures ToBits(Shr(held, n), count - n) == BytesBits(s)[8 * at - count + n..8 * at]
  {
    hide ToBits, BytesBits;
    ToBitsSplit(held, n, count - n);
    SliceParts(BytesBits(s), 8 * at - count, 8 * at, ToBits(Low(held, n), n), ToBits(Shr(held, n), count - n));
    ToFromBits(Low(held, n), n);
  }

  lemma SliceParts(bits: seq<bool>, from: nat, end: nat, low: seq<bool>, rest: seq<bool>)
    requires from <= end <= |bits| && bits[from..end] == low + rest
    ensures |low| + |rest| == end - from
    ensures bits[from..from + |low|] == low && bits[from + |low|..end] == rest
  {
    var window := bits[from..end];
    assert window[..|low|] == low && window[|low|..] == rest;
  }

  /** A place in a stream. The low `count` bits of `held` belong to the byte before `at` and come next,
      so the place is `8 * at - count`. */
  class Reader {
    const input: seq<Byte>
    var at: nat
    var held: nat
    var count: nat

    ghost predicate Valid()
      reads this
    {
      at <= |input| && count < 8 && Holds()
    }

    /** The bits held are the last `count` of the bytes taken. */
    ghost predicate Holds()
      requires at <= |input|
      reads this
    {
      count <= 8 * at && held < Pow2(count) &&
      ToBits(held, count) == BytesBits(input)[8 * at - count..8 * at]
    }

    ghost function Pos(): (p: nat)
      requires Valid()
      reads this
    {
      8 * at - count
    }

    constructor (input: seq<Byte>)
      ensures Valid() && this.input == input && Pos() == 0
    {
      this.input := input;
      at, held, count := 0, 0, 0;
    }

    /** Takes one more byte into the bits held. */
    method Take()
      requires at < |input| && Holds()
      modifies this
      ensures at == old(at) + 1 && count == old(count) + 8 && Holds()
    {
      TakenBits(input, at, held, count);
      held := held + Shl(input[at], count);
      at := at + 1;
      count := count + 8;
    }

    /** Reads `n` bits, least significant first. It is refused exactly when the stream ends
        before them. */
    method Bits(n: nat) returns (r: Result<nat, Error>)
      requires Valid() && n <= MAX_COUNT
      modifies this
      ensures r.Ok? <==> old(Pos()) + n <= 8 * |input|
      ensures r.Ok? ==> Valid() && Pos() == old(Pos()) + n
      ensures r.Ok? ==> r.value == FromBits(BytesBits(input)[old(Pos())..old(Pos()) + n])
      ensures r.Err? ==> r == Err(Input)
    {
      hide ToBits, BytesBits, FromBits;
      ghost var pos := Pos();
      while count < n
        invariant at <= |input| && Holds() && 8 * at - count == pos && count < n + 8
        decreases n - count
      {
        if at >= |input| {
          return Err(Input);
        }
        Take();
      }
      var value, rest := Low(held, n), Shr(held, n);
      ReadBits(input, at, held, count, n);
      held := rest;
      count := count - n;
      return Ok(value);
    }

    /** The bit at the place, which moves by one. */
    method Bit() returns (r: Result<nat, Error>)
      requires Valid()
      modifies this
      ensures r.Ok? <==> old(Pos()) < 8 * |input|
      ensures r.Ok? ==> Valid() && Pos() == old(Pos()) + 1
      ensures r.Ok? ==> r.value == BitAt(BytesBits(input), old(Pos()))
      ensures r.Err? ==> r == Err(Input)
    {
      ghost var b, pos := BytesBits(input), Pos();
      r := Bits(1);
      if r.Ok? {
        assert b[pos..pos + 1] == [b[pos]];
        assert FromBits([b[pos]]) == BitAt(b, pos);
      }
    }

    /** Moves the place up to the next multiple of eight. */
    method Align()
      requires Valid()
      modifies this
      ensures Valid() && count == 0 && Pos() == (old(Pos()) + 7) / 8 * 8
    {
      held := 0;
      count := 0;
    }

    /** The `n` bytes at a place that is a multiple of eight, if there are as many. */
    method Bytes(n: nat) returns (r: Result<seq<Byte>, Error>)
      requires Valid() && count == 0
      modifies this
      ensures r.Ok? <==> old(at) + n <= |input|
      ensures r.Ok? ==> Valid() && count == 0 && Pos() == old(Pos()) + 8 * n
      ensures r.Ok? ==> r.value == input[old(at)..old(at) + n]
      ensures r.Err? ==> r == Err(Input)
    {
      if at + n > |input| {
        return Err(Input);
      }
      var taken := input[at..at + n];
      at := at + n;
      return Ok(taken);
    }
  }
}
