/** What a refused block leaves in the buffer: when that is nothing. */
module PemRefusals {

  import opened Wrappers
  import opened Words
  import opened EncodingTypes
  import opened Base64Spec
  import opened Base64
  import opened TextLines
  import opened BodyStream
  import opened PemSpec
  import PemTheorem

  // ----- The first quantum of a body -----

  /** The lines up to the fourth character fit, and the first four characters decode. */
  ghost predicate FirstQuantumReads(pending: Text, lines: seq<Text>, wrap: nat, exact: bool, room: nat)
    decreases |lines|
  {
    && lines != []
    && LineFits(lines[0], wrap, exact, |lines| == 1) && LinePads(lines[0], exact, |lines| == 1)
    && (var text := pending + lines[0];
        if |text| < 4 then FirstQuantumReads(text, lines[1..], wrap, exact, room)
        else Decoded(text[..4], room).Ok?)
  }

  lemma {:induction false} BytesStay(s: Stream, text: Text, room: nat)
    requires Sound(s, room) && s.bytes != []
    ensures PushedBytes(s, text, room) != []
    ensures PushedAll(s, text, room).Ok? ==> PushedAll(s, text, room).value.bytes != []
    decreases |text|
  {
    if text != [] && Pushed(s, text[0], room).Ok? {
      hide Decoded;
      BytesStay(Pushed(s, text[0], room).value, text[1..], room);
    }
  }

  lemma QuantumHasBytes(quantum: Text, room: nat)
    requires |quantum| == 4 && Decoded(quantum, room).Ok?
    ensures Decoded(quantum, room).value != []
  {
    hide Decoded;
    DecodingIsCanonical(quantum, room, Decoded(quantum, room).value);
  }

  /** Characters short of a quantum only wait; the quantum they complete decides. */
  lemma {:induction false} FirstPushed(s: Stream, text: Text, room: nat)
    requires Sound(s, room) && s.bytes == [] && !s.padded
    ensures |s.pending + text| < 4 ==>
              PushedAll(s, text, room) == Ok(Stream(s.pending + text, s.characters + |text|, [], false))
    ensures |s.pending + text| >= 4 ==>
              (PushedBytes(s, text, room) != [] <==> Decoded((s.pending + text)[..4], room).Ok?)
    ensures |s.pending + text| >= 4 && PushedAll(s, text, room).Ok? ==> Decoded((s.pending + text)[..4], room).Ok?
    decreases |text|
  {
    hide Decoded, InBody;
    if text == [] {
      assert s.pending + text == s.pending;
    } else {
      var quantum := s.pending + [text[0]];
      assert s.pending + text == quantum + text[1..];
      if |quantum| < 4 {
        FirstPushed(Stream(quantum, s.characters + 1, [], false), text[1..], room);
      } else {
        assert (s.pending + text)[..4] == quantum;
        if Decoded(quantum, room).Ok? {
          QuantumHasBytes(quantum, room);
          BytesStay(Pushed(s, text[0], room).value, text[1..], room);
        }
      }
    }
  }

  lemma {:induction false} FedStay(s: Stream, lines: seq<Text>, wrap: nat, exact: bool, room: nat)
    requires Sound(s, room) && s.bytes != [] && lines != []
    ensures FedBytes(s, lines, wrap, exact, room) != []
    decreases |lines|
  {
    hide PushedAll, PushedBytes, Sound, LineFits, LinePads;
    BytesStay(s, lines[0], room);
    var t := Taken(s, lines[0], wrap, exact, |lines| == 1, room);
    if t.Ok? && |lines| > 1 {
      FedStay(t.value, lines[1..], wrap, exact, room);
    }
  }

  lemma {:induction false} FirstFed(s: Stream, lines: seq<Text>, wrap: nat, exact: bool, room: nat)
    requires Sound(s, room) && s.bytes == [] && !s.padded && lines != []
    ensures FedBytes(s, lines, wrap, exact, room) != [] <==> FirstQuantumReads(s.pending, lines, wrap, exact, room)
    decreases |lines|
  {
    hide PushedAll, PushedBytes, LineFits, Decoded;
    FirstPushed(s, lines[0], room);
    var t := Taken(s, lines[0], wrap, exact, |lines| == 1, room);
    var text := s.pending + lines[0];
    if t.Ok? && |lines| > 1 {
      if |text| < 4 {
        FirstFed(t.value, lines[1..], wrap, exact, room);
      } else {
        TakenBytesAre(s, lines[0], wrap, exact, false, room);
        FedStay(t.value, lines[1..], wrap, exact, room);
      }
    }
  }

  lemma TakenBytesAre(s: Stream, line: Text, wrap: nat, exact: bool, last: bool, room: nat)
    requires Sound(s, room) && Taken(s, line, wrap, exact, last, room).Ok?
    ensures PushedBytes(s, line, room) == Taken(s, line, wrap, exact, last, room).value.bytes
  {
    hide PushedAll, PushedBytes, LineFits, LinePads;
  }

  // ----- A whole text -----

  /** The frame is whole, there is room, and the first quantum decodes. */
  ghost predicate StartsBody(lines: seq<Text>, room: nat, wrap: nat, exact: bool) {
    var begin := Find(lines, BEGIN);
    && begin < |lines| && LabelAllowed(Framed(lines[begin], BEGIN).value)
    && (var rest := lines[begin + 1..];
        var end := Find(rest, END);
        && end < |rest| && Framed(rest[end], END) == Framed(lines[begin], BEGIN) && AllEmpty(rest[end + 1..])
        && rest[..end] != [] && rest[..end] != [[]] && Needed(Joined(rest[..end])) <= room
        && FirstQuantumReads([], rest[..end], wrap, exact, room))
  }

  /** Reading has written nothing exactly when it does not come to a quantum that decodes. */
  lemma {:induction false} ReadWritesNothing(lines: seq<Text>, room: nat, wrap: nat, exact: bool)
    ensures LinesWrite(lines, room, wrap, exact) == [] <==> !StartsBody(lines, room, wrap, exact)
  {
    hide Framed, Find, LabelAllowed, AllEmpty, Needed, Joined, FedBytes, FirstQuantumReads;
    var begin := Find(lines, BEGIN);
    if begin < |lines| {
      var rest := lines[begin + 1..];
      var end := Find(rest, END);
      if end < |rest| && rest[..end] != [] {
        FirstFed(START, rest[..end], wrap, exact, room);
      }
    }
  }

  /** A refusal leaves every buffer as it was exactly then. */
  lemma {:induction false} ReadRefusalIsClean(lines: seq<Text>, room: nat, wrap: nat, exact: bool)
    requires LinesRead(lines, room, wrap, exact).Err?
    ensures (forall s: seq<Byte> | |s| == room :: Over(s, 0, LinesWrite(lines, room, wrap, exact)) == s)
            <==> !StartsBody(lines, room, wrap, exact)
  {
    hide LinesRead, LinesWrite, StartsBody, Over;
    ReadWritesNothing(lines, room, wrap, exact);
    var bytes := LinesWrite(lines, room, wrap, exact);
    if bytes == [] {
      forall s: seq<Byte> | |s| == room ensures Over(s, 0, bytes) == s {
        OverNothing(s, 0);
      }
    } else {
      var s := OverSomething(bytes, room);
    }
  }

  // ----- A block that is refused after three bytes -----

  /** `AAAA!AAA`. */
  const BROKEN: Text := [65, 65, 65, 65, 33, 65, 65, 65]

  lemma ReadRefusalCanWrite(name: Text)
    requires LabelAllowed(name)
    ensures var lines := [BeginLine(name), BROKEN, EndLine(name)];
      LinesRead(lines, 6, LINE, true) == Err(Character(4)) && LinesWrite(lines, 6, LINE, true) == [0, 0, 0]
  {
    hide Framed, LabelAllowed, Needed, Fed, FedBytes;
    var lines := [BeginLine(name), BROKEN, EndLine(name)];
    var rest := lines[1..];
    PemTheorem.FramedIs(BEGIN, name);
    PemTheorem.FramedIs(END, name);
    PemTheorem.FindIs(lines, BEGIN, 0);
    NotFramed();
    assert rest[1] == EndLine(name);
    PemTheorem.FindIs(rest, END, 1);
    assert rest[2..] == [] && rest[..1] == [BROKEN];
    assert Joined([BROKEN]) == BROKEN + Joined([]) == BROKEN;
    BrokenNeeds();
    BrokenIsFed();
  }

  lemma NotFramed()
    ensures Framed(BROKEN, END).None?
  {
    assert END[0] != BROKEN[0];
  }

  lemma BrokenNeeds()
    ensures Needed(BROKEN) == 6
  {
    RunIs(BROKEN, 0);
  }

  lemma BrokenIsFed()
    ensures Fed(START, [BROKEN], LINE, true, 6) == Err(Character(4))
    ensures FedBytes(START, [BROKEN], LINE, true, 6) == [0, 0, 0]
  {
    hide PushedAll, PushedBytes;
    BrokenIsPushed();
  }

  lemma BrokenIsPushed()
    ensures PushedAll(START, BROKEN, 6) == Err(Character(4))
    ensures PushedBytes(START, BROKEN, 6) == [0, 0, 0]
  {
    hide PushedAll, PushedBytes, Decoded;
    var front, back: Text := [65, 65, 65, 65], [33, 65, 65, 65];
    assert BROKEN == front + back;
    assert Group([0, 0, 0]) == front;
    PushedGroup(START, [0, 0, 0], 6);
    assert START.bytes + [0, 0, 0] == [0, 0, 0];
    var t := Stream([], 4, [0, 0, 0], false);
    PushedAppend(START, front, back, 6);
    BytesAppend(START, front, back, 6);
    BackIsRefused(t);
  }

  lemma BackIsRefused(t: Stream)
    requires t == Stream([], 4, [0, 0, 0], false)
    ensures PushedAll(t, [33, 65, 65, 65], 6) == Err(Character(4))
    ensures PushedBytes(t, [33, 65, 65, 65], 6) == [0, 0, 0]
  {
    hide Decoded;
    var back: Text := [33, 65, 65, 65];
    var s1, s2 := Stream([33], 5, [0, 0, 0], false), Stream([33, 65], 6, [0, 0, 0], false);
    var s3 := Stream([33, 65, 65], 7, [0, 0, 0], false);
    assert [] + [33 as Byte] == [33] && [33 as Byte] + [65] == [33, 65] && [33 as Byte, 65] + [65] == [33, 65, 65];
    assert Pushed(t, 33, 6) == Ok(s1) && Pushed(s1, 65, 6) == Ok(s2) && Pushed(s2, 65, 6) == Ok(s3);
    assert s3.pending + [65] == back;
    BackDecodes();
    assert Pushed(s3, 65, 6) == Err(Character(4));
    assert back[1..] == [65, 65, 65] && back[1..][1..] == [65, 65] && back[1..][1..][1..] == [65];
    assert PushedAll(s3, [65], 6) == Err(Character(4)) && PushedBytes(s3, [65], 6) == [0, 0, 0];
    assert PushedAll(s2, [65, 65], 6) == Err(Character(4)) && PushedBytes(s2, [65, 65], 6) == [0, 0, 0];
    assert PushedAll(s1, [65, 65, 65], 6) == Err(Character(4)) && PushedBytes(s1, [65, 65, 65], 6) == [0, 0, 0];
  }

  lemma BackDecodes()
    ensures Decoded([33, 65, 65, 65], 3) == Err(Character(0))
  {
    var back: Text := [33, 65, 65, 65];
    PadIsOne(back, 0);
    assert back[..4] == back;
  }

  lemma {:induction false} BytesAppend(s: Stream, front: Text, back: Text, room: nat)
    requires Sound(s, room) && PushedAll(s, front, room).Ok?
    ensures PushedBytes(s, front + back, room) == PushedBytes(PushedAll(s, front, room).value, back, room)
    decreases |front|
  {
    hide Pushed, Sound;
    if front == [] {
      assert front + back == back;
    } else {
      assert (front + back)[0] == front[0] && (front + back)[1..] == front[1..] + back;
      BytesAppend(Pushed(s, front[0], room).value, front[1..], back, room);
    }
  }
}
