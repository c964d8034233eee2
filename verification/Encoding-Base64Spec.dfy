/**
 * Base64 as section 4 of RFC 4648 draws it: three bytes are four six-bit numbers, and a
 * last group of one or two bytes is padded. Decoding is canonical in the sense of section
 * 3.5: the bits a short group leaves over must be zero.
 */
module Base64Spec {

  import opened Wrappers
  import opened Words
  import opened EncodingTypes

  const PAD: Byte := 61

  /** The character of a six-bit number: `A`-`Z`, `a`-`z`, `0`-`9`, `+`, `/`. */
  function Letter(v: nat): (c: Byte)
    requires v < 64
    ensures c != PAD
    ensures Value(c) == Some(v)
  {
    if v < 26 then 65 + v
    else if v < 52 then 97 + (v - 26)
    else if v < 62 then 48 + (v - 52)
    else if v == 62 then 43 else 47
  }

  /** The six-bit number a character stands for. */
  function Value(c: Byte): (v: Option<nat>)
    ensures v.Some? ==> v.value < 64
  {
    if 65 <= c <= 90 then Some(c - 65)
    else if 97 <= c <= 122 then Some(c - 97 + 26)
    else if 48 <= c <= 57 then Some(c - 48 + 52)
    else if c == 43 then Some(62)
    else if c == 47 then Some(63) else None
  }

  lemma LetterOfValue(c: Byte)
    requires Value(c).Some?
    ensures c == Letter(Value(c).value)
  {
  }

  /** The four characters of a group of one, two or three bytes. */
  function Group(bytes: seq<Byte>): (text: Text)
    requires 1 <= |bytes| <= 3
    ensures |text| == 4
  {
    var a := bytes[0];
    var b := if |bytes| > 1 then bytes[1] else 0;
    var c := if |bytes| > 2 then bytes[2] else 0;
    [Letter(a / 4), Letter(a % 4 * 16 + b / 16),
     if |bytes| > 1 then Letter(b % 16 * 4 + c / 64) else PAD,
     if |bytes| > 2 then Letter(c % 64) else PAD]
  }

  function Encoded(bytes: seq<Byte>): (text: Text)
    ensures |text| % 4 == 0
  {
    if |bytes| == 0 then []
    else if |bytes| <= 3 then Group(bytes)
    else Group(bytes[..3]) + Encoded(bytes[3..])
  }

  function EncodedLength(bytes: nat): (n: nat) {
    (bytes + 2) / 3 * 4
  }

  lemma {:induction false} EncodedTakes(bytes: seq<Byte>)
    ensures |Encoded(bytes)| == EncodedLength(|bytes|)
  {
    hide Group;
    if |bytes| > 3 {
      EncodedTakes(bytes[3..]);
    }
  }

  /** Whole groups encode on their own, so a text grows at its end. */
  lemma {:induction false} EncodedAppend(front: seq<Byte>, back: seq<Byte>)
    requires |front| % 3 == 0
    ensures Encoded(front + back) == Encoded(front) + Encoded(back)
  {
    hide Group;
    if front == [] {
      assert front + back == back;
    } else if back == [] {
      assert front + back == front;
    } else if |front| == 3 {
      assert (front + back)[..3] == front && (front + back)[3..] == back;
    } else {
      EncodedAppend(front[3..], back);
      assert (front + back)[..3] == front[..3];
      assert (front + back)[3..] == front[3..] + back;
    }
  }

  // ----- Padding -----

  /** Exactly the last `k` characters are pads. */
  ghost predicate PaddedBy(text: Text, k: nat) {
    && k <= |text|
    && forall i :: 0 <= i < |text| ==> (text[i] == PAD <==> i >= |text| - k)
  }

  /** The pad a text ends in, where it is one a text may have. */
  ghost function PadOf(text: Text): (pad: Option<nat>)
    ensures pad.Some? ==> pad.value <= 2 && pad.value <= |text| && PaddedBy(text, pad.value)
  {
    if PaddedBy(text, 0) then Some(0)
    else if PaddedBy(text, 1) then Some(1)
    else if PaddedBy(text, 2) then Some(2) else None
  }

  lemma PadIsOne(text: Text, k: nat)
    requires PaddedBy(text, k) && k <= 2
    ensures PadOf(text) == Some(k)
  {
    if k > 0 {
      assert text[|text| - 1] == PAD;
    }
    if k == 2 {
      assert text[|text| - 2] == PAD;
    }
  }

  // ----- Decoding -----

  /** The value of a character that may be a pad, which reads as zero. */
  function PadOrValue(c: Byte): (v: Option<nat>)
    ensures v.Some? ==> v.value < 64
  {
    if c == PAD then Some(0) else Value(c)
  }

  /** The first `here` bytes of the group four values make. */
  function Octets(v: seq<nat>, here: nat): (bytes: seq<Byte>)
    requires |v| == 4 && forall i :: 0 <= i < 4 ==> v[i] < 64
    requires here <= 3
    ensures |bytes| == here
  {
    [v[0] * 4 + v[1] / 16, v[1] % 16 * 16 + v[2] / 4, v[2] % 4 * 64 + v[3]][..here]
  }

  /** The bits below those `here` bytes are zero. */
  predicate Canonical(v: seq<nat>, here: nat)
    requires |v| == 4
  {
    (here == 1 ==> v[1] % 16 == 0 && v[2] == 0 && v[3] == 0) && (here == 2 ==> v[2] % 4 == 0 && v[3] == 0)
  }

  /** What four characters at an offset decode to when the first `here` bytes are kept. */
  function Quantum(text: Text, at: nat, here: nat): (r: Result<seq<Byte>, Error>)
    requires |text| == 4 && here <= 3
    ensures r.Ok? ==> |r.value| == here
    ensures r.Err? ==> r.error.Character? || r.error == TrailingBits
  {
    if Value(text[0]).None? then Err(Character(at))
    else if Value(text[1]).None? then Err(Character(at + 1))
    else if PadOrValue(text[2]).None? then Err(Character(at + 2))
    else if PadOrValue(text[3]).None? then Err(Character(at + 3))
    else
      var v := [Value(text[0]).value, Value(text[1]).value, PadOrValue(text[2]).value, PadOrValue(text[3]).value];
      if Canonical(v, here) then Ok(Octets(v, here)) else Err(TrailingBits)
  }

  /** What the quanta of a text decode to; `at` is the offset of the first. */
  function Quanta(text: Text, pad: nat, at: nat): (r: Result<seq<Byte>, Error>)
    requires |text| % 4 == 0 && pad <= 2
    ensures r.Ok? ==> |r.value| == |text| / 4 * 3 - (if text == [] then 0 else pad)
    ensures r.Err? ==> r.error.Character? || r.error == TrailingBits
  {
    if text == [] then Ok([])
    else
      var first :- Quantum(text[..4], at, if |text| == 4 then 3 - pad else 3);
      var rest :- Quanta(text[4..], pad, at + 4);
      Ok(first + rest)
  }

  /** The answer of a strict decoder with room for so many bytes. */
  ghost function Decoded(text: Text, room: nat): (r: Result<seq<Byte>, Error>)
    ensures r.Ok? ==> |r.value| <= room
  {
    if |text| % 4 != 0 then Err(Length(|text|))
    else match PadOf(text)
      case None => Err(Padding)
      case Some(pad) =>
        if room < |text| / 4 * 3 - pad then Err(BufferTooSmall) else Quanta(text, pad, 0)
  }

  // ----- What a refusal leaves behind -----

  /** The bytes of the quanta before the first that is refused. */
  function SoundQuanta(text: Text, pad: nat, at: nat): (bytes: seq<Byte>)
    requires |text| % 4 == 0 && pad <= 2
    ensures |bytes| <= |text| / 4 * 3 - (if text == [] then 0 else pad)
  {
    if text == [] then []
    else
      var first := Quantum(text[..4], at, if |text| == 4 then 3 - pad else 3);
      if first.Err? then [] else first.value + SoundQuanta(text[4..], pad, at + 4)
  }

  lemma {:induction false} QuantaAreSound(text: Text, pad: nat, at: nat)
    requires |text| % 4 == 0 && pad <= 2 && Quanta(text, pad, at).Ok?
    ensures SoundQuanta(text, pad, at) == Quanta(text, pad, at).value
  {
    hide Quantum;
    if text != [] {
      QuantaAreSound(text[4..], pad, at + 4);
    }
  }

  /** A text that is refused before its quanta are looked at. */
  ghost predicate RefusedUnread(text: Text, room: nat) {
    |text| % 4 != 0 || PadOf(text).None? || room < |text| / 4 * 3 - PadOf(text).value
  }

  /** What a decoder that goes quantum by quantum has written when it answers. */
  ghost function Written(text: Text, room: nat): (bytes: seq<Byte>)
    ensures |bytes| <= room
  {
    if RefusedUnread(text, room) then [] else SoundQuanta(text, PadOf(text).value, 0)
  }

  /** On success that is the whole answer. */
  lemma WholeIsWritten(text: Text, room: nat)
    requires Decoded(text, room).Ok?
    ensures Written(text, room) == Decoded(text, room).value
  {
    hide Quanta, SoundQuanta;
    QuantaAreSound(text, PadOf(text).value, 0);
  }

  /** The first quantum of a text is refused. */
  ghost predicate FirstRefused(text: Text)
    requires |text| % 4 == 0 && PadOf(text).Some?
  {
    text != [] && Quantum(text[..4], 0, if |text| == 4 then 3 - PadOf(text).value else 3).Err?
  }

  /** A refusal has written nothing exactly when it comes before the quanta or at the first of them. */
  lemma NothingIsWritten(text: Text, room: nat)
    requires Decoded(text, room).Err?
    ensures Written(text, room) == [] <==> RefusedUnread(text, room) || FirstRefused(text)
  {
    hide Quantum, PadOf;
  }

  /** `AAAA!AAA` is refused at its fifth character, and three bytes are written. */
  lemma RefusalCanWrite()
    ensures var text := [65, 65, 65, 65, 33, 65, 65, 65];
      Decoded(text, 6) == Err(Character(4)) && Written(text, 6) == [0, 0, 0]
  {
    var text := [65, 65, 65, 65, 33, 65, 65, 65];
    PadIsOne(text, 0);
    var first, second := text[..4], text[4..];
    assert first == [65, 65, 65, 65] && second == [33, 65, 65, 65] && second[..4] == second;
    assert Octets([0, 0, 0, 0], 3) == [0, 0, 0];
    assert Quantum(first, 0, 3) == Ok([0, 0, 0]);
    assert Quantum(second[..4], 4, 3) == Err(Character(4));
    assert Quanta(second, 0, 4) == Err(Character(4)) && SoundQuanta(second, 0, 4) == [];
  }

  // ----- Decoding is the inverse of encoding, and of nothing else -----

  lemma GroupPads(bytes: seq<Byte>)
    requires 1 <= |bytes| <= 3
    ensures PaddedBy(Group(bytes), 3 - |bytes|)
  {
  }

  /** A group reads back as its bytes. */
  lemma GroupReads(bytes: seq<Byte>, at: nat)
    requires 1 <= |bytes| <= 3
    ensures Quantum(Group(bytes), at, |bytes|) == Ok(bytes)
  {
    var a := bytes[0];
    var b := if |bytes| > 1 then bytes[1] else 0;
    var c := if |bytes| > 2 then bytes[2] else 0;
    var v := [a / 4, a % 4 * 16 + b / 16, b % 16 * 4 + c / 64, c % 64];
    assert Octets(v, |bytes|) == bytes;
  }

  /** What reads as bytes is the group of those bytes. */
  lemma QuantumIsGroup(text: Text, at: nat, pad: nat)
    requires |text| == 4 && pad <= 2 && PaddedBy(text, pad)
    requires Quantum(text, at, 3 - pad).Ok?
    ensures text == Group(Quantum(text, at, 3 - pad).value)
  {
    hide Letter, Value;
    LetterOfValue(text[0]);
    LetterOfValue(text[1]);
    assert text[2] == PAD <==> pad == 2;
    assert text[3] == PAD <==> pad >= 1;
    if pad < 2 {
      LetterOfValue(text[2]);
    }
    if pad < 1 {
      LetterOfValue(text[3]);
    }
    var v := [Value(text[0]).value, Value(text[1]).value, PadOrValue(text[2]).value, PadOrValue(text[3]).value];
    SextetsAreBack(v[0], v[1], v[2], v[3]);
    var bytes := Octets(v, 3 - pad);
    assert bytes[0] == v[0] * 4 + v[1] / 16;
    assert pad < 2 ==> bytes[1] == v[1] % 16 * 16 + v[2] / 4;
    assert pad < 1 ==> bytes[2] == v[2] % 4 * 64 + v[3];
  }

  lemma SextetsAreBack(p: nat, q: nat, r: nat, s: nat)
    requires p < 64 && q < 64 && r < 64 && s < 64
    ensures (p * 4 + q / 16) / 4 == p
    ensures (p * 4 + q / 16) % 4 * 16 + (q % 16 * 16 + r / 4) / 16 == q
    ensures (q % 16 * 16 + r / 4) % 16 * 4 + (r % 4 * 64 + s) / 64 == r
    ensures (r % 4 * 64 + s) % 64 == s
  {
  }

  lemma PaddedTail(text: Text, pad: nat)
    requires |text| > 4 && |text| % 4 == 0 && pad <= 2 && PaddedBy(text, pad)
    ensures PaddedBy(text[4..], pad) && PaddedBy(text[..4], 0)
  {
    var tail := text[4..];
    forall i | 0 <= i < |tail| ensures tail[i] == PAD <==> i >= |tail| - pad {
      assert tail[i] == text[i + 4];
    }
  }

  lemma {:induction false} QuantaAreEncoded(text: Text, pad: nat, at: nat)
    requires |text| % 4 == 0 && pad <= 2 && PaddedBy(text, pad)
    requires Quanta(text, pad, at).Ok?
    ensures text == Encoded(Quanta(text, pad, at).value)
  {
    hide Quantum, Group, PaddedBy, PadOrValue, Letter;
    if |text| == 4 {
      assert text[..4] == text && text[4..] == [];
      QuantumIsGroup(text[..4], at, pad);
      var first := Quantum(text[..4], at, 3 - pad).value;
      assert first + [] == first;
    } else if |text| > 4 {
      PaddedTail(text, pad);
      QuantumIsGroup(text[..4], at, 0);
      QuantaAreEncoded(text[4..], pad, at + 4);
      var first := Quantum(text[..4], at, 3).value;
      var rest := Quanta(text[4..], pad, at + 4).value;
      EncodedAppend(first, rest);
      assert text == text[..4] + text[4..];
    }
  }

  /** The pad of the text of so many bytes. */
  function PadFor(bytes: nat): (pad: nat)
    ensures pad <= 2
  {
    (3 - bytes % 3) % 3
  }

  lemma {:induction false} EncodedPads(bytes: seq<Byte>)
    ensures PaddedBy(Encoded(bytes), PadFor(|bytes|))
  {
    if 0 < |bytes| <= 3 {
      GroupPads(bytes);
    } else if |bytes| > 3 {
      hide Group, PaddedBy, PadFor;
      EncodedPads(bytes[3..]);
      GroupPads(bytes[..3]);
      PadForMore(|bytes[3..]|);
      PaddedAppend(Group(bytes[..3]), Encoded(bytes[3..]), PadFor(|bytes|));
    }
  }

  lemma PadForMore(n: nat)
    ensures PadFor(n + 3) == PadFor(n)
  {
  }

  lemma {:induction false} PaddedAppend(front: Text, back: Text, pad: nat)
    requires PaddedBy(front, 0) && PaddedBy(back, pad)
    ensures PaddedBy(front + back, pad)
  {
    forall i | 0 <= i < |front + back| ensures (front + back)[i] == PAD <==> i >= |front + back| - pad {
      assert (front + back)[i] == if i < |front| then front[i] else back[i - |front|];
    }
  }

  lemma {:induction false} EncodedReads(bytes: seq<Byte>, at: nat)
    ensures Quanta(Encoded(bytes), PadFor(|bytes|), at) == Ok(bytes)
  {
    hide Quantum, Group, Letter, Value;
    var text := Encoded(bytes);
    if 0 < |bytes| <= 3 {
      GroupReads(bytes, at);
      assert text[..4] == text && text[4..] == [];
      assert bytes + [] == bytes;
    } else if |bytes| > 3 {
      GroupReads(bytes[..3], at);
      EncodedReads(bytes[3..], at + 4);
      assert text[..4] == Group(bytes[..3]) && text[4..] == Encoded(bytes[3..]);
      assert bytes == bytes[..3] + bytes[3..];
    }
  }

  /** Decoding is canonical: bytes have exactly one text that decodes to them. */
  lemma DecodingIsCanonical(text: Text, room: nat, bytes: seq<Byte>)
    ensures Decoded(text, room) == Ok(bytes) <==> text == Encoded(bytes) && |bytes| <= room
  {
    hide Quanta, Encoded, PaddedBy;
    if Decoded(text, room) == Ok(bytes) {
      QuantaAreEncoded(text, PadOf(text).value, 0);
      EncodedPads(bytes);
      PadIsOne(text, PadFor(|bytes|));
      EncodedTakes(bytes);
    }
    if text == Encoded(bytes) && |bytes| <= room {
      EncodedPads(bytes);
      PadIsOne(text, PadFor(|bytes|));
      EncodedReads(bytes, 0);
      EncodedTakes(bytes);
    }
  }
}
