/** Reading a block into a buffer, against `LinesRead` for the answer and `LinesWrite` for the buffer. */
module PemReader {

  import opened Wrappers
  import opened Words
  import opened EncodingTypes
  import opened Base64Spec
  import opened Base64
  import opened TextLines
  import opened BodyStream
  import opened PemSpec
  import PemWriter

  lemma {:induction false} OverParts(s: seq<Byte>, at: nat, what: seq<Byte>)
    requires at + |what| <= |s|
    ensures var r, end := Over(s, at, what), at + |what|;
            r[..end] == s[..at] + what && r[end..] == s[end..]
  {
  }

  lemma {:induction false} PushedCases(s: Stream, c: Byte, room: nat)
    requires Sound(s, room)
    ensures s.padded ==> Pushed(s, c, room) == Err(Padding)
    ensures !s.padded && |s.pending| < 3 ==>
              Pushed(s, c, room) == Ok(Stream(s.pending + [c], s.characters + 1, s.bytes, false))
    ensures !s.padded && |s.pending| == 3 ==>
              var quantum := s.pending + [c];
              var d := Decoded(quantum, room - |s.bytes|);
              Pushed(s, c, room) == if d.Err? then Err(InBody(d.error, s.characters + 1))
                                    else Ok(Stream([], s.characters + 1, s.bytes + d.value, PAD in quantum))
  {
    hide Decoded;
  }

  /** The last characters of a quantum that takes characters at its end. */
  function Pending(quantum: Text, filled: nat): (pending: Text)
    requires |quantum| == 4 && filled <= 4
    ensures |pending| == filled
  {
    quantum[4 - filled..]
  }

  lemma {:induction false} PendingGrows(quantum: Text, filled: nat, c: Byte)
    requires |quantum| == 4 && filled < 4
    ensures Pending(quantum[1..] + [c], filled + 1) == Pending(quantum, filled) + [c]
    ensures filled == 3 ==> quantum[1..] + [c] == Pending(quantum, filled) + [c]
  {
  }

  lemma {:induction false} OverFront(s: seq<Byte>, t: seq<Byte>, n: nat)
    requires n <= |s| == |t| && t[n..] == s[n..]
    ensures t == Over(s, 0, t[..n])
  {
    assert t == t[..n] + t[n..];
  }

  /** A `Stream` over a buffer: the last `filled` bytes of `quantum` are pending, the first `written` bytes
      of `out` are decoded. */
  class Quanta {

    const out: array<Byte>
    var quantum: seq<Byte>
    var filled: nat
    var characters: nat
    var written: nat
    var padded: bool

    ghost predicate Valid()
      reads this
    {
      |quantum| == 4 && filled < 4 && filled <= characters && written <= out.Length
    }

    ghost function State(): (s: Stream)
      reads this, out
      requires Valid()
      ensures Sound(s, out.Length)
    {
      Stream(Pending(quantum, filled), characters, out[..written], padded)
    }

    /** The buffer past what has been written is as it was. */
    twostate predicate Past(at: nat)
      reads this, out
    {
      at <= written <= out.Length && out[written..] == old(out[..])[written..]
    }

    constructor (buffer: array<Byte>)
      ensures Valid() && out == buffer
      ensures State() == START
    {
      out := buffer;
      quantum := [0, 0, 0, 0];
      filled, characters, written, padded := 0, 0, 0, false;
    }

    method Push(c: Byte) returns (r: Result<(), Error>)
      requires Valid()
      modifies this, out
      ensures var s := Pushed(old(State()), c, out.Length);
              && (s.Err? ==> r == Err(s.error) && written == old(written) && out[..] == old(out[..]))
              && (s.Ok? ==> r == Ok(()) && Valid() && State() == s.value && Past(old(written)))
    {
      hide Pushed, Decoded, Pending;
      ghost var before := State();
      PushedCases(before, c, out.Length);
      if padded {
        return Err(Padding);
      }
      PendingGrows(quantum, filled, c);
      quantum := quantum[1..] + [c];
      characters := characters + 1;
      filled := filled + 1;
      if filled < 4 {
        return Ok(());
      }
      r := PutQuantum(before);
    }

    /** Decodes a full quantum. */
    method PutQuantum(ghost s: Stream) returns (r: Result<(), Error>)
      requires |quantum| == 4 && filled == 4 && written <= out.Length && characters >= 4 && out[..written] == s.bytes
      modifies this`written, this`filled, this`padded, out
      ensures var d := Decoded(quantum, out.Length - |s.bytes|);
              && (d.Err? ==>
                    && r == Err(InBody(d.error, characters)) && written == old(written) && out[..] == old(out[..]))
              && (d.Ok? ==>
                    && r == Ok(()) && Valid() && State() == Stream([], characters, s.bytes + d.value, PAD in quantum)
                    && Past(old(written)))
    {
      hide Decoded, Over, Base64Spec.Written;
      padded := PAD in quantum;
      var bytes := Decode(quantum, out, written);
      if bytes.Err? {
        OneQuantum(quantum, out.Length - written);
        OverNothing(old(out[..]), written);
        return Err(InBody(bytes.error, characters));
      }
      OverParts(old(out[..]), written, Decoded(quantum, out.Length - written).value);
      written := written + bytes.value;
      filled := 0;
      assert out[..written] == out[..][..written] && out[written..] == out[..][written..];
      return Ok(());
    }

    method Take(line: Text, wrap: nat, exact: bool, last: bool) returns (r: Result<(), Error>)
      requires Valid()
      modifies this, out
      ensures var s := Taken(old(State()), line, wrap, exact, last, out.Length);
              && (s.Err? ==> r == Err(s.error))
              && (s.Ok? ==> r == Ok(()) && Valid() && State() == s.value)
      ensures Past(old(written)) && out[..written] == TakenBytes(old(State()), line, wrap, exact, last, out.Length)
    {
      hide Pushed, LineFits;
      if !LineFits(line, wrap, exact, last) {
        return Err(LineLength(|line|, wrap));
      }
      if exact && !last && PAD in line {
        return Err(Padding);
      }
      assert line[0..] == line;
      for i := 0 to |line|
        invariant Valid()
        invariant PushedAll(old(State()), line, out.Length) == PushedAll(State(), line[i..], out.Length)
        invariant PushedBytes(old(State()), line, out.Length) == PushedBytes(State(), line[i..], out.Length)
        invariant Past(old(written))
      {
        assert line[i..][0] == line[i] && line[i..][1..] == line[i + 1..];
        ghost var before, at := out[..], written;
        var pushed := Push(line[i]);
        if pushed.Err? {
          assert out[..written] == before[..at];
          return pushed;
        }
        Further(old(out[..]), before, at, written);
      }
      return Ok(());
    }

    method Finish() returns (r: Result<nat, Error>)
      requires Valid()
      ensures Finished(State()).Err? ==> r == Err(Finished(State()).error)
      ensures Finished(State()).Ok? ==> r == Ok(written) && Finished(State()).value == out[..written]
    {
      if filled == 0 {
        return Ok(written);
      }
      return Err(Length(characters));
    }
  }

  /** A refused quantum has written nothing. */
  lemma OneQuantum(text: Text, room: nat)
    requires |text| == 4 && Decoded(text, room).Err?
    ensures Base64Spec.Written(text, room) == []
  {
    hide Quantum, PadOf;
    assert text[4..] == [];
    if !RefusedUnread(text, room) {
      assert Base64Spec.Quanta(text[4..], PadOf(text).value, 4) == Ok([]);
      assert Quantum(text[..4], 0, 3 - PadOf(text).value).Err?;
    }
  }

  lemma {:induction false} Further(s: seq<Byte>, t: seq<Byte>, i: nat, j: nat)
    requires i <= j <= |s| == |t| && s[i..] == t[i..]
    ensures s[j..] == t[j..]
  {
    assert s[j..] == s[i..][j - i..] && t[j..] == t[i..][j - i..];
  }

  /** Feeds a body line by line, each once it is known whether it is the last. */
  method FeedBody(body: Text, quanta: Quanta, wrap: nat, exact: bool) returns (r: Result<(), Error>)
    requires quanta.Valid()
    modifies quanta, quanta.out
    ensures var s := Fed(old(quanta.State()), LinesOf(body), wrap, exact, quanta.out.Length);
            && (s.Err? ==> r == Err(s.error))
            && (s.Ok? ==> r == Ok(()) && quanta.Valid() && quanta.State() == s.value)
    ensures quanta.Past(old(quanta.written))
    ensures quanta.out[..quanta.written]
            == FedBytes(old(quanta.State()), LinesOf(body), wrap, exact, quanta.out.Length)
  {
    hide LinesOf, Taken, TakenBytes, Sound;
    var lines := new Lines(body);
    var line := lines.Next();
    var previous := line.value;
    ghost var todo := LinesOf(body);
    while true
      invariant quanta.Valid() && fresh(lines) && quanta.Past(old(quanta.written))
      invariant todo != [] && previous == todo[0] && lines.Remaining() == todo[1..]
      invariant Fed(old(quanta.State()), LinesOf(body), wrap, exact, quanta.out.Length)
                == Fed(quanta.State(), todo, wrap, exact, quanta.out.Length)
      invariant FedBytes(old(quanta.State()), LinesOf(body), wrap, exact, quanta.out.Length)
                == FedBytes(quanta.State(), todo, wrap, exact, quanta.out.Length)
      decreases |todo|
    {
      ghost var before, at := quanta.out[..], quanta.written;
      var next := lines.Next();
      var taken := quanta.Take(previous, wrap, exact, next.None?);
      Further(old(quanta.out[..]), before, at, quanta.written);
      if taken.Err? {
        return taken;
      }
      if next.None? {
        return Ok(());
      }
      previous := next.value;
      todo := todo[1..];
    }
  }

  method ReadBody(body: Text, out: array<Byte>, wrap: nat, exact: bool) returns (r: Result<seq<Byte>, Error>)
    requires body != []
    modifies out
    ensures r == BodyReads(LinesOf(body), out.Length, wrap, exact)
    ensures out[..] == Over(old(out[..]), 0, BodyWrites(LinesOf(body), out.Length, wrap, exact))
    ensures r == Err(BufferTooSmall) ==> out[..] == old(out[..])
  {
    hide LinesOf, Kept, Joined, Needed, Fed, FedBytes, Over;
    OverNothing(out[..], 0);
    OneEmptyLine(body);
    KeptIsJoined(body);
    var kept := Kept(body);
    if out.Length < Needed(kept) {
      return Err(BufferTooSmall);
    }
    NeverLacksRoom(LinesOf(body), wrap, exact, out.Length);
    var quanta := new Quanta(out);
    var fed := FeedBody(body, quanta, wrap, exact);
    OverFront(old(out[..]), out[..], quanta.written);
    assert out[..][..quanta.written] == out[..quanta.written];
    if fed.Err? {
      return Err(fed.error);
    }
    var written := quanta.Finish();
    if written.Err? {
      return Err(written.error);
    }
    return Ok(out[..written.value]);
  }

  lemma NeverLacksRoom(lines: seq<Text>, wrap: nat, exact: bool, room: nat)
    requires lines != [] && Needed(Joined(lines)) <= room
    ensures Fed(START, lines, wrap, exact, room) != Err(BufferTooSmall)
  {
    StartHolds(room);
    assert [] + Joined(lines) == Joined(lines);
    FedHasRoom(START, [], lines, wrap, exact, room);
  }

  /** Reads on to a frame line, and answers its label and where the line starts. */
  method FindFrame(lines: Lines, opening: Text) returns (name: Option<Text>, start: Text)
    modifies lines
    ensures var all := old(lines.Remaining());
            var k := Find(all, opening);
            && (k == |all| ==> name == None)
            && (k < |all| ==>
                && name == Framed(all[k], opening)
                && start == Skip(old(lines.rest), k)
                && lines.Remaining() == all[k + 1..])
  {
    hide LinesOf, Framed, Find, Skip;
    ghost var all := lines.Remaining();
    ghost var k := 0;
    name, start := None, [];
    assert all[0..] == all;
    SkipNone(lines.rest);
    while true
      invariant k <= |all| && lines.Remaining() == all[k..]
      invariant Find(all, opening) == k + Find(all[k..], opening)
      invariant k < |all| ==> !lines.done && lines.rest == Skip(old(lines.rest), k)
      decreases |all| - k
    {
      FindNext(all, k, opening);
      start := lines.rest;
      var line := lines.Next();
      if line.None? {
        return None, start;
      }
      name := Framed(line.value, opening);
      if name.Some? {
        return name, start;
      }
      if k + 1 < |all| {
        SkipNext(old(lines.rest), k);
      }
      k := k + 1;
    }
  }

  lemma {:induction false} FindNext(lines: seq<Text>, k: nat, opening: Text)
    requires k <= |lines|
    ensures k == |lines| ==> lines[k..] == [] && Find(lines[k..], opening) == 0
    ensures k < |lines| ==>
              && lines[k..][0] == lines[k] && lines[k..][1..] == lines[k + 1..]
              && Find(lines[k..], opening)
                 == if Framed(lines[k], opening).Some? then 0 else 1 + Find(lines[k + 1..], opening)
  {
    hide Framed;
  }

  lemma SkipNone(text: Text)
    ensures Skip(text, 0) == text
  {
  }

  lemma NoBody(lines: seq<Text>, room: nat, wrap: nat, exact: bool)
    requires lines == [] || lines == [[]]
    ensures BodyReads(lines, room, wrap, exact) == Err(EmptyPayload) && BodyWrites(lines, room, wrap, exact) == []
  {
  }

  /** Reads the stretch of text that holds these lines; there is none when they hold nothing. */
  method ReadSpan(text: Text, ghost lines: seq<Text>, out: array<Byte>, wrap: nat, exact: bool)
    returns (r: Result<seq<Byte>, Error>)
    requires text == [] <==> lines == [] || lines == [[]]
    requires text != [] ==> LinesOf(text) == lines
    modifies out
    ensures r == BodyReads(lines, out.Length, wrap, exact)
    ensures out[..] == Over(old(out[..]), 0, BodyWrites(lines, out.Length, wrap, exact))
    ensures r == Err(BufferTooSmall) ==> out[..] == old(out[..])
  {
    hide LinesOf, BodyReads, BodyWrites, Over;
    if text == [] {
      OverNothing(out[..], 0);
      NoBody(lines, out.Length, wrap, exact);
      return Err(EmptyPayload);
    }
    r := ReadBody(text, out, wrap, exact);
  }

  /** Reads the rest of a block whose begin line has been read. */
  method ReadBlock(lines: Lines, name: Text, out: array<Byte>, wrap: nat, exact: bool) returns (r: Result<Block, Error>)
    modifies lines, out
    ensures r == BlockReads(name, old(lines.Remaining()), out.Length, wrap, exact)
    ensures out[..] == Over(old(out[..]), 0, BlockWrites(name, old(lines.Remaining()), out.Length, wrap, exact))
    ensures r == Err(BufferTooSmall) ==> out[..] == old(out[..])
  {
    OverNothing(out[..], 0);
    ghost var after := lines.Remaining();
    BlockShape(name, after, out.Length, wrap, exact);
    hide LinesOf, BlockReads, BlockWrites, BodyReads, BodyWrites, Framed, Find, AllEmpty, Strip, Over;
    var body := lines.rest;
    var end, closing := FindFrame(lines, END);
    if end.None? {
      return Err(MissingEnd);
    }
    ghost var k := Find(after, END);
    if end.value != name {
      return Err(LabelMismatch);
    }
    var trailing := AnyLine(lines);
    if trailing {
      return Err(TrailingData);
    }
    var text := Strip(body[..|body| - |closing|]);
    BodyIsSpan(body, k);
    var bytes :- ReadSpan(text, after[..k], out, wrap, exact);
    return Ok(Block(name, bytes));
  }

  lemma {:induction false} BlockShape(name: Text, lines: seq<Text>, room: nat, wrap: nat, exact: bool)
    ensures var r, w := BlockReads(name, lines, room, wrap, exact), BlockWrites(name, lines, room, wrap, exact);
            var end := Find(lines, END);
            if end == |lines| then r == Err(MissingEnd) && w == []
            else if Framed(lines[end], END) != Some(name) then r == Err(LabelMismatch) && w == []
            else if !AllEmpty(lines[end + 1..]) then r == Err(TrailingData) && w == []
            else
              var body := BodyReads(lines[..end], room, wrap, exact);
              && r == (if body.Err? then Err(body.error) else Ok(Block(name, body.value)))
              && w == BodyWrites(lines[..end], room, wrap, exact)
  {
    hide BodyReads, BodyWrites, Framed, Find, AllEmpty;
  }

  /** Reads a block. What the buffer then holds, of a refused one too, is the quanta before the refusal. */
  method Read(input: Text, out: array<Byte>, wrap: nat, exact: bool) returns (r: Result<Block, Error>)
    modifies out
    ensures r == LinesRead(LinesOf(input), out.Length, wrap, exact)
    ensures out[..] == Over(old(out[..]), 0, LinesWrite(LinesOf(input), out.Length, wrap, exact))
    ensures r.Ok? ==> LinesWrite(LinesOf(input), out.Length, wrap, exact) == r.value.bytes
    ensures r == Err(BufferTooSmall) ==> out[..] == old(out[..])
  {
    OverNothing(out[..], 0);
    TextShape(LinesOf(input), out.Length, wrap, exact);
    hide LinesOf, LabelAllowed, LinesRead, LinesWrite, BlockReads, BlockWrites, Framed, Find, Over;
    var lines := new Lines(input);
    var begin, _ := FindFrame(lines, BEGIN);
    if begin.None? {
      return Err(MissingBegin);
    }
    var name := begin.value;
    var allowed := PemWriter.CheckLabel(name);
    if !allowed {
      return Err(Label);
    }
    r := ReadBlock(lines, name, out, wrap, exact);
    if r.Ok? {
      ReadIsWritten(LinesOf(input), out.Length, wrap, exact);
    }
  }

  lemma {:induction false} TextShape(lines: seq<Text>, room: nat, wrap: nat, exact: bool)
    ensures var r, w := LinesRead(lines, room, wrap, exact), LinesWrite(lines, room, wrap, exact);
            var begin := Find(lines, BEGIN);
            if begin == |lines| then r == Err(MissingBegin) && w == []
            else
              var name, rest := Framed(lines[begin], BEGIN).value, lines[begin + 1..];
              if !LabelAllowed(name) then r == Err(Label) && w == []
              else r == BlockReads(name, rest, room, wrap, exact) && w == BlockWrites(name, rest, room, wrap, exact)
  {
    hide LabelAllowed, BlockReads, BlockWrites, Framed, Find;
  }

  /** Whether a line that is not empty is left. */
  method AnyLine(lines: Lines) returns (any: bool)
    modifies lines
    ensures any <==> !AllEmpty(old(lines.Remaining()))
  {
    ghost var all := lines.Remaining();
    ghost var k := 0;
    while true
      invariant k <= |all| && lines.Remaining() == all[k..]
      invariant AllEmpty(all[..k])
      decreases |all| - k
    {
      var line := lines.Next();
      if line.None? {
        assert all[..k] == all;
        return false;
      }
      assert all[k..][0] == all[k] && all[k..][1..] == all[k + 1..];
      if line.value != [] {
        return true;
      }
      assert all[..k + 1] == all[..k] + [all[k]];
      k := k + 1;
    }
  }

  /** The stretch between the frame lines, without its last break, is the lines between them. */
  lemma {:induction false} BodyIsSpan(body: Text, k: nat)
    requires k < |LinesOf(body)| && Framed(LinesOf(body)[k], END).Some?
    ensures var text := Strip(Span(body, k));
            && (text == [] <==> k == 0 || LinesOf(body)[..k] == [[]])
            && (text != [] ==> LinesOf(text) == LinesOf(body)[..k])
  {
    hide LinesOf, Strip;
    if k == 0 {
      SpanNone(body);
      assert Strip([]) == [];
    } else {
      ClosingStarts(body, k);
      SpanLines(body, k);
      OneEmptyLine(Strip(Span(body, k)));
    }
  }

  /** A frame line starts with a hyphen. */
  lemma {:induction false} ClosingStarts(body: Text, k: nat)
    requires k < |LinesOf(body)| && Framed(LinesOf(body)[k], END).Some?
    ensures Skip(body, k) != [] && Skip(body, k)[0] != LF
  {
    var closing := Skip(body, k);
    var line := LinesOf(body)[k];
    assert LinesOf(closing)[0] == line;
    assert line == closing[..Position(closing)];
    assert line[0] == END[0] == 45;
  }
}
