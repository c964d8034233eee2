/** Base64 read a character at a time, four to a quantum, and fed a line at a time. */
module BodyStream {

  import opened Wrappers
  import opened Words
  import opened EncodingTypes
  import opened Base64Spec
  import opened TextLines

  /** The characters of an unfinished quantum, how many were read, the bytes so far, and whether a pad came. */
  datatype Stream = Stream(pending: Text, characters: nat, bytes: seq<Byte>, padded: bool)

  const START := Stream([], 0, [], false)

  ghost predicate Sound(s: Stream, room: nat) {
    |s.pending| < 4 && |s.bytes| <= room && |s.pending| <= s.characters
  }

  /** The error of the last quantum, with its offset counted from the start of the body. */
  function InBody(error: Error, characters: nat): (r: Error)
    requires characters >= 4
  {
    match error
    case Character(at) => Character(characters - 4 + at)
    case _ => error
  }

  /** One more character. */
  ghost function Pushed(s: Stream, c: Byte, room: nat): (r: Result<Stream, Error>)
    requires Sound(s, room)
    ensures r.Ok? ==> Sound(r.value, room)
  {
    if s.padded then Err(Padding)
    else
      var quantum := s.pending + [c];
      if |quantum| < 4 then Ok(Stream(quantum, s.characters + 1, s.bytes, false))
      else match Decoded(quantum, room - |s.bytes|)
        case Err(error) => Err(InBody(error, s.characters + 1))
        case Ok(bytes) => Ok(Stream([], s.characters + 1, s.bytes + bytes, PAD in quantum))
  }

  ghost function PushedAll(s: Stream, text: Text, room: nat): (r: Result<Stream, Error>)
    requires Sound(s, room)
    ensures r.Ok? ==> Sound(r.value, room)
    decreases |text|
  {
    if text == [] then Ok(s)
    else
      var t :- Pushed(s, text[0], room);
      PushedAll(t, text[1..], room)
  }

  /** The bytes there are when the characters are through, or one is refused. */
  ghost function PushedBytes(s: Stream, text: Text, room: nat): (bytes: seq<Byte>)
    requires Sound(s, room)
    ensures |bytes| <= room
    ensures PushedAll(s, text, room).Ok? ==> bytes == PushedAll(s, text, room).value.bytes
    decreases |text|
  {
    if text == [] || Pushed(s, text[0], room).Err? then s.bytes
    else PushedBytes(Pushed(s, text[0], room).value, text[1..], room)
  }

  /** A body is done when no quantum is left unfinished. */
  function Finished(s: Stream): (r: Result<seq<Byte>, Error>) {
    if s.pending == [] then Ok(s.bytes) else Err(Length(s.characters))
  }

  ghost function Streamed(text: Text, room: nat): (r: Result<seq<Byte>, Error>) {
    var s :- PushedAll(START, text, room);
    Finished(s)
  }

  lemma {:induction false} PushedAppend(s: Stream, front: Text, back: Text, room: nat)
    requires Sound(s, room)
    ensures var t := PushedAll(s, front, room);
            PushedAll(s, front + back, room) == if t.Err? then t else PushedAll(t.value, back, room)
    decreases |front|
  {
    hide Pushed, Sound;
    if front == [] {
      assert front + back == back;
    } else {
      assert (front + back)[0] == front[0] && (front + back)[1..] == front[1..] + back;
      var t := Pushed(s, front[0], room);
      if t.Ok? {
        PushedAppend(t.value, front[1..], back, room);
      }
    }
  }

  // ----- What has been read is the encoding of the bytes, and an unfinished quantum -----

  ghost predicate Holds(s: Stream, text: Text) {
    && text == Encoded(s.bytes) + s.pending
    && (s.padded ==> s.pending == [])
    && (!s.padded ==> |s.bytes| % 3 == 0)
  }

  lemma {:induction false} PushedHolds(s: Stream, text: Text, c: Byte, room: nat)
    requires Sound(s, room) && Holds(s, text) && Pushed(s, c, room).Ok?
    ensures Holds(Pushed(s, c, room).value, text + [c])
  {
    hide Decoded, Encoded;
    var quantum := s.pending + [c];
    assert text + [c] == Encoded(s.bytes) + quantum;
    if |quantum| == 4 {
      var bytes := Decoded(quantum, room - |s.bytes|).value;
      DecodingIsCanonical(quantum, room - |s.bytes|, bytes);
      EncodedAppend(s.bytes, bytes);
      EncodedPads(bytes);
      assert Encoded(s.bytes + bytes) + [] == Encoded(s.bytes + bytes);
      if PadFor(|bytes|) > 0 {
        assert quantum[3] == PAD;
      }
    }
  }

  lemma {:induction false} AllHolds(s: Stream, done: Text, text: Text, room: nat)
    requires Sound(s, room) && Holds(s, done) && PushedAll(s, text, room).Ok?
    ensures Holds(PushedAll(s, text, room).value, done + text)
    decreases |text|
  {
    hide Pushed, Holds, Sound;
    if text == [] {
      assert done + text == done;
    } else {
      PushedHolds(s, done, text[0], room);
      AllHolds(Pushed(s, text[0], room).value, done + [text[0]], text[1..], room);
      assert done + [text[0]] + text[1..] == done + text;
    }
  }

  // ----- Every encoding is read -----

  lemma {:induction false} PushedGroup(s: Stream, group: seq<Byte>, room: nat)
    requires Sound(s, room) && s.pending == [] && !s.padded
    requires 1 <= |group| <= 3 && |s.bytes| + |group| <= room
    ensures PushedAll(s, Group(group), room) == Ok(Stream([], s.characters + 4, s.bytes + group, |group| < 3))
  {
    hide Decoded, Group;
    var q := Group(group);
    assert Encoded(group) == q;
    DecodingIsCanonical(q, room - |s.bytes|, group);
    GroupPads(group);
    assert PAD in q <==> |group| < 3 by {
      assert |group| < 3 ==> q[3] == PAD;
    }
    var n := s.characters;
    var s1 := Stream([q[0]], n + 1, s.bytes, false);
    var s2 := Stream([q[0], q[1]], n + 2, s.bytes, false);
    var s3 := Stream([q[0], q[1], q[2]], n + 3, s.bytes, false);
    assert [] + [q[0]] == [q[0]];
    assert Pushed(s, q[0], room) == Ok(s1);
    assert [q[0]] + [q[1]] == [q[0], q[1]];
    assert Pushed(s1, q[1], room) == Ok(s2);
    assert [q[0], q[1]] + [q[2]] == [q[0], q[1], q[2]];
    assert Pushed(s2, q[2], room) == Ok(s3);
    assert [q[0], q[1], q[2]] + [q[3]] == q;
    var s4 := Stream([], n + 4, s.bytes + group, |group| < 3);
    assert Pushed(s3, q[3], room) == Ok(s4);
    FourPushed(s, s1, s2, s3, s4, q, room);
  }

  lemma {:induction false} FourPushed(s: Stream, s1: Stream, s2: Stream, s3: Stream, s4: Stream, q: Text, room: nat)
    requires |q| == 4 && Sound(s, room) && Sound(s1, room) && Sound(s2, room) && Sound(s3, room) && Sound(s4, room)
    requires Pushed(s, q[0], room) == Ok(s1) && Pushed(s1, q[1], room) == Ok(s2)
    requires Pushed(s2, q[2], room) == Ok(s3) && Pushed(s3, q[3], room) == Ok(s4)
    ensures PushedAll(s, q, room) == Ok(s4)
  {
    hide Pushed, Sound;
    assert PushedAll(s4, [], room) == Ok(s4);
    assert q[3..][1..] == [];
    assert PushedAll(s3, q[3..], room) == Ok(s4);
    assert q[2..][1..] == q[3..];
    assert PushedAll(s2, q[2..], room) == Ok(s4);
    assert q[1..][1..] == q[2..];
    assert PushedAll(s1, q[1..], room) == Ok(s4);
  }

  lemma {:induction false} EncodedPushed(s: Stream, bytes: seq<Byte>, room: nat)
    requires Sound(s, room) && s.pending == [] && !s.padded && |s.bytes| + |bytes| <= room
    ensures var r := PushedAll(s, Encoded(bytes), room);
            r.Ok? && r.value.pending == [] && r.value.bytes == s.bytes + bytes
    decreases |bytes|
  {
    hide PushedAll, Group;
    if bytes == [] {
      assert s.bytes + bytes == s.bytes;
      NothingPushed(s, room);
    } else if |bytes| <= 3 {
      PushedGroup(s, bytes, room);
    } else {
      PushedGroup(s, bytes[..3], room);
      var t := Stream([], s.characters + 4, s.bytes + bytes[..3], false);
      EncodedPushed(t, bytes[3..], room);
      PushedAppend(s, Group(bytes[..3]), Encoded(bytes[3..]), room);
      assert s.bytes + bytes[..3] + bytes[3..] == s.bytes + bytes;
    }
  }

  lemma NothingPushed(s: Stream, room: nat)
    requires Sound(s, room)
    ensures PushedAll(s, [], room) == Ok(s)
  {
  }

  /** Reading by quanta accepts what decoding the whole text accepts, with the same bytes. */
  lemma {:induction false} StreamIsWhole(text: Text, room: nat, bytes: seq<Byte>)
    ensures Streamed(text, room) == Ok(bytes) <==> Decoded(text, room) == Ok(bytes)
  {
    hide PushedAll, Decoded, Encoded;
    DecodingIsCanonical(text, room, bytes);
    if text == Encoded(bytes) && |bytes| <= room {
      EncodedPushed(START, bytes, room);
      assert [] + bytes == bytes;
    }
    if Streamed(text, room) == Ok(bytes) {
      StartHolds(room);
      AllHolds(START, [], text, room);
      assert [] + text == text;
      assert Encoded(bytes) + [] == Encoded(bytes);
    }
  }

  // ----- Lines -----

  /** The lengths a body line may have, and the one place a strict body may pad. */
  predicate LineFits(line: Text, wrap: nat, exact: bool, last: bool) {
    if exact && !last then |line| == wrap else line != [] && |line| <= wrap
  }

  predicate LinePads(line: Text, exact: bool, last: bool) {
    exact && !last ==> PAD !in line
  }

  ghost function Taken(s: Stream, line: Text, wrap: nat, exact: bool, last: bool, room: nat): (r: Result<Stream, Error>)
    requires Sound(s, room)
    ensures r.Ok? ==> Sound(r.value, room)
  {
    if !LineFits(line, wrap, exact, last) then Err(LineLength(|line|, wrap))
    else if !LinePads(line, exact, last) then Err(Padding)
    else PushedAll(s, line, room)
  }

  ghost function Fed(s: Stream, lines: seq<Text>, wrap: nat, exact: bool, room: nat): (r: Result<Stream, Error>)
    requires Sound(s, room) && lines != []
    ensures r.Ok? ==> Sound(r.value, room)
    decreases |lines|
  {
    var t :- Taken(s, lines[0], wrap, exact, |lines| == 1, room);
    if |lines| == 1 then Ok(t) else Fed(t, lines[1..], wrap, exact, room)
  }

  /** The bytes there are when a line is through, or refused. */
  ghost function TakenBytes(s: Stream, line: Text, wrap: nat, exact: bool, last: bool, room: nat): (bytes: seq<Byte>)
    requires Sound(s, room)
    ensures |bytes| <= room
    ensures Taken(s, line, wrap, exact, last, room).Ok? ==> bytes == Taken(s, line, wrap, exact, last, room).value.bytes
  {
    if !LineFits(line, wrap, exact, last) || (exact && !last && PAD in line) then s.bytes
    else PushedBytes(s, line, room)
  }

  /** The bytes there are when the lines are through, or one is refused. */
  ghost function FedBytes(s: Stream, lines: seq<Text>, wrap: nat, exact: bool, room: nat): (bytes: seq<Byte>)
    requires Sound(s, room) && lines != []
    ensures |bytes| <= room
    ensures Fed(s, lines, wrap, exact, room).Ok? ==> bytes == Fed(s, lines, wrap, exact, room).value.bytes
    decreases |lines|
  {
    var t := Taken(s, lines[0], wrap, exact, |lines| == 1, room);
    if t.Err? || |lines| == 1 then TakenBytes(s, lines[0], wrap, exact, |lines| == 1, room)
    else FedBytes(t.value, lines[1..], wrap, exact, room)
  }

  ghost predicate LinesFit(lines: seq<Text>, wrap: nat, exact: bool) {
    forall k :: 0 <= k < |lines| ==>
      LineFits(lines[k], wrap, exact, k == |lines| - 1) && LinePads(lines[k], exact, k == |lines| - 1)
  }

  lemma {:induction false} FitFirst(lines: seq<Text>, wrap: nat, exact: bool)
    requires lines != []
    ensures LinesFit(lines, wrap, exact) <==>
            && LineFits(lines[0], wrap, exact, |lines| == 1)
            && LinePads(lines[0], exact, |lines| == 1)
            && LinesFit(lines[1..], wrap, exact)
  {
    hide LineFits, LinePads;
    var rest := lines[1..];
    if LinesFit(lines, wrap, exact) {
      forall k | 0 <= k < |rest|
        ensures LineFits(rest[k], wrap, exact, k == |rest| - 1) && LinePads(rest[k], exact, k == |rest| - 1)
      {
        assert rest[k] == lines[k + 1];
      }
    }
    if LinesFit(rest, wrap, exact) {
      assert forall k :: 1 <= k < |lines| ==> lines[k] == rest[k - 1];
    }
  }

  /** However the characters stand in lines, they are read as one text. */
  lemma {:induction false} FedIsPushed(s: Stream, lines: seq<Text>, wrap: nat, exact: bool, room: nat, t: Stream)
    requires Sound(s, room) && lines != []
    ensures Fed(s, lines, wrap, exact, room) == Ok(t)
            <==> LinesFit(lines, wrap, exact) && PushedAll(s, Joined(lines), room) == Ok(t)
    decreases |lines|
  {
    hide PushedAll, LinesFit, LineFits, LinePads;
    FitFirst(lines, wrap, exact);
    PushedAppend(s, lines[0], Joined(lines[1..]), room);
    var r := PushedAll(s, lines[0], room);
    if r.Ok? {
      if |lines| == 1 {
        NothingPushed(r.value, room);
        NoLinesFit(lines[1..], wrap, exact);
      } else {
        FedIsPushed(r.value, lines[1..], wrap, exact, room, t);
      }
    }
  }

  lemma NoLinesFit(lines: seq<Text>, wrap: nat, exact: bool)
    requires lines == []
    ensures LinesFit(lines, wrap, exact)
  {
  }

  // ----- Room -----

  /** How many pads a text ends in. */
  function PadRun(text: Text): (n: nat)
    ensures n <= |text|
  {
    if text == [] || text[|text| - 1] != PAD then 0 else 1 + PadRun(text[..|text| - 1])
  }

  function Minus(a: nat, b: nat): (r: nat) {
    if a < b then 0 else a - b
  }

  function Min(a: nat, b: nat): (r: nat) {
    if a < b then a else b
  }

  /** The room asked for before a body is read. */
  function Needed(text: Text): (bytes: nat) {
    var most := |text| / 4 * 3;
    if |text| % 4 == 0 then Minus(most, Min(PadRun(text), 2)) else most
  }

  lemma {:induction false} RunIs(text: Text, p: nat)
    requires p < |text| && text[|text| - p - 1] != PAD
    requires forall i :: |text| - p <= i < |text| ==> text[i] == PAD
    ensures PadRun(text) == p
  {
    if p > 0 {
      RunIs(text[..|text| - 1], p - 1);
    }
  }

  /** The last quantum of a text settles how many pads the text ends in. */
  lemma {:induction false} LastQuantum(text: Text, quantum: Text, p: nat)
    requires |quantum| == 4 <= |text| && text[|text| - 4..] == quantum
    requires p <= 2 && PaddedBy(quantum, p)
    ensures PadRun(text) == p
  {
    hide PadRun;
    forall i | |text| - 4 <= i < |text| ensures text[i] == quantum[i - (|text| - 4)] {
      assert text[|text| - 4..][i - (|text| - 4)] == text[i];
    }
    RunIs(text, p);
  }

  lemma {:induction false} PushRoom(s: Stream, done: Text, c: Byte, rest: Text, room: nat)
    requires Sound(s, room) && Holds(s, done) && Needed(done + [c] + rest) <= room
    ensures Pushed(s, c, room) != Err(BufferTooSmall)
  {
    hide PaddedBy, Quanta, Encoded, PadRun;
    var quantum := s.pending + [c];
    if !s.padded && |quantum| == 4 && PadOf(quantum).Some? {
      EncodedTakes(s.bytes);
      var whole := done + [c] + rest;
      if rest == [] {
        assert whole == Encoded(s.bytes) + quantum;
        LastQuantum(whole, quantum, PadOf(quantum).value);
      }
    }
  }

  lemma {:induction false} RoomIsEnough(s: Stream, done: Text, text: Text, rest: Text, room: nat)
    requires Sound(s, room) && Holds(s, done) && Needed(done + text + rest) <= room
    ensures PushedAll(s, text, room) != Err(BufferTooSmall)
    decreases |text|
  {
    hide Pushed, Sound, Holds, Needed;
    if text != [] {
      assert done + [text[0]] + (text[1..] + rest) == done + text + rest;
      PushRoom(s, done, text[0], text[1..] + rest, room);
      var t := Pushed(s, text[0], room);
      if t.Ok? {
        PushedHolds(s, done, text[0], room);
        assert done + [text[0]] + text[1..] + rest == done + text + rest;
        RoomIsEnough(t.value, done + [text[0]], text[1..], rest, room);
      }
    }
  }

  /** With the room asked for, a body is never refused for lack of it once reading has begun. */
  lemma {:induction false} FedHasRoom(s: Stream, done: Text, lines: seq<Text>, wrap: nat, exact: bool, room: nat)
    requires Sound(s, room) && Holds(s, done) && lines != [] && Needed(done + Joined(lines)) <= room
    ensures Fed(s, lines, wrap, exact, room) != Err(BufferTooSmall)
    decreases |lines|
  {
    hide PushedAll, Sound, Holds, Needed, LineFits, LinePads;
    var rest := Joined(lines[1..]);
    assert done + lines[0] + rest == done + Joined(lines);
    RoomIsEnough(s, done, lines[0], rest, room);
    var t := Taken(s, lines[0], wrap, exact, |lines| == 1, room);
    if t.Ok? && |lines| > 1 {
      AllHolds(s, done, lines[0], room);
      FedHasRoom(t.value, done + lines[0], lines[1..], wrap, exact, room);
    }
  }

  lemma StartHolds(room: nat)
    ensures Sound(START, room) && Holds(START, [])
  {
    assert Encoded([]) + [] == [];
  }
}
