/** The encoder and the decoder, which work on a buffer from an offset on. */
module Base64 {

  import opened Wrappers
  import opened Words
  import opened EncodingTypes
  import opened Base64Spec

  /** A buffer with bytes written over it from an offset on. */
  function Over(s: seq<Byte>, at: nat, what: seq<Byte>): (r: seq<Byte>)
    requires at + |what| <= |s|
    ensures |r| == |s| && r[..at] == s[..at]
  {
    s[..at] + what + s[at + |what|..]
  }

  lemma OverAgain(s: seq<Byte>, at: nat, first: seq<Byte>, second: seq<Byte>)
    requires at + |first| + |second| <= |s|
    ensures Over(Over(s, at, first), at + |first|, second) == Over(s, at, first + second)
  {
  }

  // ----- Encoding -----

  /** The letter of the sextet of weight `below`. */
  function Sextet(quantum: nat, below: nat): (c: Byte)
    requires below > 0
  {
    Letter(quantum / below % 64)
  }

  lemma Digits64(q: nat, p: nat, s: nat, t: nat, u: nat)
    requires p < 64 && s < 64 && t < 64 && u < 64
    requires q == p * 0x4_0000 + s * 0x1000 + t * 0x40 + u
    ensures q / 0x4_0000 % 64 == p && q / 0x1000 % 64 == s && q / 0x40 % 64 == t && q / 1 % 64 == u
  {
    assert q / 0x4_0000 == p;
    assert q / 0x1000 == p * 64 + s;
    assert q / 0x40 == p * 0x1000 + s * 64 + t;
  }

  lemma Digits256(q: nat, x: nat, y: nat, z: nat)
    requires x < 256 && y < 256 && z < 256
    requires q == x * 0x1_0000 + y * 0x100 + z
    ensures q / 0x1_0000 % 0x100 == x && q / 0x100 % 0x100 == y && q / 1 % 0x100 == z
    ensures q % 0x1_0000 == y * 0x100 + z && q % 0x100 == z
  {
    assert q / 0x1_0000 == x;
    assert q / 0x100 == x * 0x100 + y;
  }

  lemma SextetsOfBytes(q: nat, a: Byte, b: Byte, c: Byte)
    requires q == a * 0x1_0000 + b * 0x100 + c
    ensures Sextet(q, 0x4_0000) == Letter(a / 4)
    ensures Sextet(q, 0x1000) == Letter(a % 4 * 16 + b / 16)
    ensures Sextet(q, 0x40) == Letter(b % 16 * 4 + c / 64)
    ensures Sextet(q, 1) == Letter(c % 64)
  {
    hide Letter;
    Digits64(q, a / 4, a % 4 * 16 + b / 16, b % 16 * 4 + c / 64, c % 64);
  }

  /** Writes four characters. */
  method PutFour(first: Byte, second: Byte, third: Byte, fourth: Byte, out: array<Byte>, at: nat)
    requires at + 4 <= out.Length
    modifies out
    ensures out[..] == Over(old(out[..]), at, [first, second, third, fourth])
  {
    out[at] := first;
    out[at + 1] := second;
    out[at + 2] := third;
    out[at + 3] := fourth;
  }

  /** Writes the group of one, two or three bytes. */
  method PutGroup(bytes: seq<Byte>, out: array<Byte>, at: nat)
    requires 1 <= |bytes| <= 3 && at + 4 <= out.Length
    modifies out
    ensures out[..] == Over(old(out[..]), at, Group(bytes))
  {
    hide Letter, Over, Sextet;
    var a: nat := bytes[0];
    var quantum := a * 0x1_0000;
    if |bytes| == 1 {
      SextetsOfBytes(quantum, bytes[0], 0, 0);
      PutFour(Sextet(quantum, 0x4_0000), Sextet(quantum, 0x1000), PAD, PAD, out, at);
    } else {
      var b: nat := bytes[1];
      quantum := quantum + b * 0x100;
      if |bytes| == 2 {
        SextetsOfBytes(quantum, bytes[0], bytes[1], 0);
        PutFour(Sextet(quantum, 0x4_0000), Sextet(quantum, 0x1000), Sextet(quantum, 0x40), PAD, out, at);
      } else {
        quantum := quantum + bytes[2];
        SextetsOfBytes(quantum, bytes[0], bytes[1], bytes[2]);
        PutFour(Sextet(quantum, 0x4_0000), Sextet(quantum, 0x1000), Sextet(quantum, 0x40), Sextet(quantum, 1), out, at);
      }
    }
  }

  method Encode(input: seq<Byte>, out: array<Byte>, from: nat) returns (r: Result<nat, Error>)
    requires from <= out.Length
    modifies out
    ensures out.Length - from < EncodedLength(|input|) ==> r == Err(BufferTooSmall) && out[..] == old(out[..])
    ensures EncodedLength(|input|) <= out.Length - from ==>
              && r == Ok(EncodedLength(|input|))
              && |Encoded(input)| == EncodedLength(|input|)
              && out[..] == Over(old(out[..]), from, Encoded(input))
  {
    hide Group, Encoded, Over, EncodedLength;
    var needed := EncodedLength(|input|);
    if out.Length - from < needed {
      return Err(BufferTooSmall);
    }
    EncodedTakes(input);
    var written, at := 0, 0;
    Begin(out[..], from);
    while at + 3 <= |input|
      invariant at <= |input| && at % 3 == 0
      invariant written == EncodedLength(at) == |Encoded(input[..at])|
      invariant from + written <= out.Length
      invariant out[..] == Over(old(out[..]), from, Encoded(input[..at]))
    {
      Extends(input, at, at + 3);
      PutGroup(input[at..at + 3], out, from + written);
      OverAgain(old(out[..]), from, Encoded(input[..at]), Group(input[at..at + 3]));
      written := written + 4;
      at := at + 3;
    }
    if at < |input| {
      Extends(input, at, |input|);
      PutGroup(input[at..], out, from + written);
      OverAgain(old(out[..]), from, Encoded(input[..at]), Group(input[at..]));
      written := written + 4;
    }
    assert input[..|input|] == input;
    return Ok(written);
  }

  lemma Begin(s: seq<Byte>, from: nat)
    requires from <= |s|
    ensures Encoded([]) == [] && EncodedLength(0) == 0 && Over(s, from, []) == s
  {
  }

  lemma Extends(input: seq<Byte>, at: nat, next: nat)
    requires at < next <= |input| && next <= at + 3 && at % 3 == 0
    ensures Encoded(input[..next]) == Encoded(input[..at]) + Group(input[at..next])
    ensures |Encoded(input[..at])| + 4 == EncodedLength(next) <= EncodedLength(|input|)
  {
    hide Group;
    assert Encoded(input[at..next]) == Group(input[at..next]);
    hide Encoded, EncodedLength;
    EncodedAppend(input[..at], input[at..next]);
    assert input[..next] == input[..at] + input[at..next];
    EncodedTakes(input[..at]);
    LengthGrows(at, next, |input|);
  }

  lemma LengthGrows(at: nat, next: nat, end: nat)
    requires at < next <= at + 3 && next <= end && at % 3 == 0
    ensures EncodedLength(at) + 4 == EncodedLength(next) <= EncodedLength(end)
  {
    assert (next + 2) / 3 == at / 3 + 1;
    assert (next + 2) / 3 <= (end + 2) / 3;
  }

  // ----- Decoding -----

  /** All ones below the `count` high bytes of twenty-four bits. */
  function UnusedMask(count: nat): (mask: nat) {
    if count == 1 then 0xFFFF else if count == 2 then 0xFF else 0
  }

  method PadLength(input: Text) returns (r: Result<nat, Error>)
    ensures r == match PadOf(input) case Some(pad) => Ok(pad) case None => Err(Padding)
  {
    var pad, n := 0, |input|;
    for index := 0 to n
      invariant forall i :: 0 <= i < index && input[i] == PAD ==> n - i <= 2
      invariant pad == (if n - 2 >= 0 && n - 2 < index && input[n - 2] == PAD then 1 else 0)
                       + (if n - 1 >= 0 && n - 1 < index && input[n - 1] == PAD then 1 else 0)
    {
      if input[index] == PAD {
        if n - index > 2 {
          return Err(Padding);
        }
        pad := pad + 1;
      }
    }
    if pad == 1 && input[n - 1] != PAD {
      assert input[n - 2] == PAD;
      return Err(Padding);
    }
    assert PaddedBy(input, pad);
    PadIsOne(input, pad);
    return Ok(pad);
  }

  lemma OctetsOfSextets(v: seq<nat>)
    requires |v| == 4 && forall i :: 0 <= i < 4 ==> v[i] < 64
    ensures var q := v[0] * 0x4_0000 + v[1] * 0x1000 + v[2] * 0x40 + v[3];
            && q / 0x1_0000 % 0x100 == v[0] * 4 + v[1] / 16
            && q / 0x100 % 0x100 == v[1] % 16 * 16 + v[2] / 4
            && q / 1 % 0x100 == v[2] % 4 * 64 + v[3]
            && (q % 0x1_0000 == 0 <==> v[1] % 16 == 0 && v[2] == 0 && v[3] == 0)
            && (q % 0x100 == 0 <==> v[2] % 4 == 0 && v[3] == 0)
  {
    var x, y, z := v[0] * 4 + v[1] / 16, v[1] % 16 * 16 + v[2] / 4, v[2] % 4 * 64 + v[3];
    Digits256(v[0] * 0x4_0000 + v[1] * 0x1000 + v[2] * 0x40 + v[3], x, y, z);
  }

  /** Reads four characters at an offset of the text and writes the bytes they keep. */
  method PutQuantum(text: Text, at: nat, here: nat, out: array<Byte>, to: nat) returns (r: Result<nat, Error>)
    requires |text| == 4 && 1 <= here <= 3 && to + here <= out.Length
    modifies out
    ensures Quantum(text, at, here).Ok? ==>
              && r == Ok(to + here)
              && out[..] == Over(old(out[..]), to, Quantum(text, at, here).value)
    ensures Quantum(text, at, here).Err? ==> r == Err(Quantum(text, at, here).error) && out[..] == old(out[..])
  {
    hide Value;
    if Value(text[0]).None? {
      return Err(Character(at));
    }
    if Value(text[1]).None? {
      return Err(Character(at + 1));
    }
    if PadOrValue(text[2]).None? {
      return Err(Character(at + 2));
    }
    if PadOrValue(text[3]).None? {
      return Err(Character(at + 3));
    }
    ghost var v := [Value(text[0]).value, Value(text[1]).value, PadOrValue(text[2]).value, PadOrValue(text[3]).value];
    var quantum := Value(text[0]).value * 0x4_0000 + Value(text[1]).value * 0x1000
                   + PadOrValue(text[2]).value * 0x40 + PadOrValue(text[3]).value;
    OctetsOfSextets(v);
    if quantum % (UnusedMask(here) + 1) != 0 {
      return Err(TrailingBits);
    }
    PutOctets(quantum, here, out, to);
    assert OctetsOf(quantum, here) == Octets(v, here);
    return Ok(to + here);
  }

  function OctetsOf(quantum: nat, here: nat): (bytes: seq<Byte>)
    requires here <= 3
    ensures |bytes| == here
  {
    [quantum / 0x1_0000 % 0x100, quantum / 0x100 % 0x100, quantum / 1 % 0x100][..here]
  }

  method PutOctets(quantum: nat, here: nat, out: array<Byte>, to: nat)
    requires here <= 3 && to + here <= out.Length
    modifies out
    ensures out[..] == Over(old(out[..]), to, OctetsOf(quantum, here))
  {
    ghost var bytes := OctetsOf(quantum, here);
    var below := 0x1_0000;
    for byte := 0 to here
      invariant below == if byte == 0 then 0x1_0000 else if byte == 1 then 0x100 else if byte == 2 then 1 else 0
      invariant out[..] == Over(old(out[..]), to, bytes[..byte])
    {
      out[to + byte] := quantum / below % 0x100;
      below := below / 0x100;
    }
  }

  /** Decodes into the buffer from an offset on. A refusal leaves the bytes of the quanta before it. */
  method Decode(input: Text, out: array<Byte>, from: nat) returns (r: Result<nat, Error>)
    requires from <= out.Length
    modifies out
    ensures r == match Decoded(input, out.Length - from)
                 case Ok(bytes) => Ok(|bytes|)
                 case Err(error) => Err(error)
    ensures out[..] == Over(old(out[..]), from, Written(input, out.Length - from))
    ensures Decoded(input, out.Length - from).Ok? ==>
              Written(input, out.Length - from) == Decoded(input, out.Length - from).value
  {
    hide Quanta, SoundQuanta, PadOf, Over;
    if Decoded(input, out.Length - from).Ok? {
      WholeIsWritten(input, out.Length - from);
    }
    OverNothing(out[..], from);
    if |input| % 4 != 0 {
      return Err(Length(|input|));
    }
    var padding := PadLength(input);
    if padding.Err? {
      return Err(Padding);
    }
    var pad := padding.value;
    var bytes := |input| / 4 * 3 - pad;
    if out.Length - from < bytes {
      return Err(BufferTooSmall);
    }
    r := DecodeQuanta(input, pad, out, from);
  }

  /** Decodes quantum by quantum, where there is room for all of them. */
  method DecodeQuanta(input: Text, pad: nat, out: array<Byte>, from: nat) returns (r: Result<nat, Error>)
    requires |input| % 4 == 0 && pad <= 2 && from + |input| / 4 * 3 - (if input == [] then 0 else pad) <= out.Length
    modifies out
    ensures r == match Quanta(input, pad, 0)
                 case Ok(bytes) => Ok(|bytes|)
                 case Err(error) => Err(error)
    ensures out[..] == Over(old(out[..]), from, SoundQuanta(input, pad, 0))
  {
    hide Quantum, Quanta, SoundQuanta, Over, Resumed;
    OverNothing(out[..], from);
    NothingRead(input, pad);
    ghost var done: seq<Byte> := [];
    var written, quanta := 0, |input| / 4;
    for index := 0 to quanta
      invariant written == |done| == 3 * index - (if 0 < index == quanta then pad else 0)
      invariant Quanta(input, pad, 0) == Resumed(input, pad, 4 * index, done)
      invariant SoundQuanta(input, pad, 0) == done + SoundQuanta(input[4 * index..], pad, 4 * index)
      invariant out[..] == Over(old(out[..]), from, done)
    {
      var at := 4 * index;
      var here := if at + 4 == |input| then 3 - pad else 3;
      QuantumRead(input, pad, at, here, done);
      var put := PutQuantum(input[at..at + 4], at, here, out, from + written);
      if put.Err? {
        return Err(put.error);
      }
      ghost var more := Quantum(input[at..at + 4], at, here).value;
      OverAgain(old(out[..]), from, done, more);
      done := done + more;
      written := written + here;
    }
    AllRead(input, pad, done);
    return Ok(written);
  }

  lemma OverNothing(s: seq<Byte>, from: nat)
    requires from <= |s|
    ensures Over(s, from, []) == s
  {
  }

  lemma NothingRead(input: Text, pad: nat)
    requires |input| % 4 == 0 && pad <= 2
    ensures Quanta(input, pad, 0) == Resumed(input, pad, 0, [])
    ensures SoundQuanta(input, pad, 0) == [] + SoundQuanta(input[0..], pad, 0)
  {
    hide Quanta, SoundQuanta;
    assert input[0..] == input;
    if Quanta(input, pad, 0).Ok? {
      assert [] + Quanta(input, pad, 0).value == Quanta(input, pad, 0).value;
    }
  }

  /** The answer from an offset on, once some bytes have been read. */
  ghost function Resumed(input: Text, pad: nat, at: nat, done: seq<Byte>): (r: Result<seq<Byte>, Error>)
    requires |input| % 4 == 0 && at % 4 == 0 && at <= |input| && pad <= 2
  {
    After(done, Quanta(input[at..], pad, at))
  }

  lemma QuantumRead(input: Text, pad: nat, at: nat, here: nat, done: seq<Byte>)
    requires |input| % 4 == 0 && at % 4 == 0 && at + 4 <= |input| && pad <= 2
    requires here == if at + 4 == |input| then 3 - pad else 3
    ensures var first := Quantum(input[at..at + 4], at, here);
            Resumed(input, pad, at, done)
            == if first.Err? then Err(first.error) else Resumed(input, pad, at + 4, done + first.value)
    ensures var first := Quantum(input[at..at + 4], at, here);
            done + SoundQuanta(input[at..], pad, at)
            == if first.Err? then done else done + first.value + SoundQuanta(input[at + 4..], pad, at + 4)
  {
    hide Quantum;
    assert input[at..][..4] == input[at..at + 4] && input[at..][4..] == input[at + 4..];
    var first, rest := Quantum(input[at..at + 4], at, here), Quanta(input[at + 4..], pad, at + 4);
    if first.Ok? {
      AfterMore(done, first.value, rest);
      assert done + (first.value + SoundQuanta(input[at + 4..], pad, at + 4))
          == done + first.value + SoundQuanta(input[at + 4..], pad, at + 4);
    } else {
      assert done + [] == done;
    }
  }

  lemma AllRead(input: Text, pad: nat, done: seq<Byte>)
    requires pad <= 2 && |input| % 4 == 0
    ensures Resumed(input, pad, |input|, done) == Ok(done)
    ensures done + SoundQuanta(input[|input|..], pad, |input|) == done
  {
    assert input[|input|..] == [];
    assert done + [] == done;
  }

  /** The answer once some bytes have been read. */
  ghost function After(done: seq<Byte>, rest: Result<seq<Byte>, Error>): (r: Result<seq<Byte>, Error>) {
    match rest
    case Ok(bytes) => Ok(done + bytes)
    case Err(error) => Err(error)
  }

  lemma AfterMore(done: seq<Byte>, more: seq<Byte>, rest: Result<seq<Byte>, Error>)
    ensures After(done, After(more, rest)) == After(done + more, rest)
  {
    if rest.Ok? {
      assert done + (more + rest.value) == done + more + rest.value;
    }
  }

  /** A refusal leaves every buffer as it was exactly when it comes before the quanta or at the first of them. */
  lemma RefusalIsClean(text: Text, room: nat)
    requires Decoded(text, room).Err?
    ensures (forall s: seq<Byte>, from: nat | from + room == |s| :: Over(s, from, Written(text, room)) == s)
            <==> RefusedUnread(text, room) || FirstRefused(text)
  {
    hide RefusedUnread, FirstRefused, Decoded, Written, Over;
    NothingIsWritten(text, room);
    var bytes := Written(text, room);
    if bytes == [] {
      forall s: seq<Byte>, from: nat | from + room == |s| ensures Over(s, from, bytes) == s {
        OverNothing(s, from);
      }
    } else {
      var s := OverSomething(bytes, room);
    }
  }

  /** Some buffer shows that bytes were written. */
  lemma OverSomething(bytes: seq<Byte>, room: nat) returns (s: seq<Byte>)
    requires 0 < |bytes| <= room
    ensures |s| == room && Over(s, 0, bytes) != s
  {
    var other: Byte := if bytes[0] == 0 then 1 else 0;
    s := seq(room, _ => other);
    assert Over(s, 0, bytes)[0] != s[0];
  }
}
