/** The frame of RFC 7468: a begin line, lines of Base64, an end line that names the same label. */
module PemSpec {

  import opened Wrappers
  import opened Words
  import opened EncodingTypes
  import opened Base64Spec
  import opened TextLines
  import opened BodyStream

  /** The width of the strict form of RFC 7468. */
  const LINE: nat := 64

  /** Five hyphens. */
  const DASHES: Text := [45, 45, 45, 45, 45]

  /** Five hyphens, `BEGIN` and a space. */
  const BEGIN: Text := [45, 45, 45, 45, 45, 66, 69, 71, 73, 78, 32]

  /** Five hyphens, `END` and a space. */
  const END: Text := [45, 45, 45, 45, 45, 69, 78, 68, 32]

  datatype Block = Block(name: Text, bytes: seq<Byte>)

  /** What stands between an opening and five hyphens, when that is the whole line. */
  function Framed(line: Text, opening: Text): (name: Option<Text>)
    ensures name.Some? ==> line == opening + name.value + DASHES
  {
    if opening <= line && |opening| + |DASHES| <= |line| && line[|line| - |DASHES|..] == DASHES then
      var name := line[|opening|..|line| - |DASHES|];
      assert line == opening + name + DASHES;
      Some(name)
    else
      None
  }

  predicate Separator(c: Byte) {
    c == 32 || c == 45
  }

  /** The labels of RFC 7468: printable, no two separators in a row, none first or last. */
  ghost predicate LabelAllowed(name: Text) {
    && (name != [] ==> !Separator(name[0]) && !Separator(name[|name| - 1]))
    && (forall i :: 0 <= i < |name| ==> 0x20 <= name[i] <= 0x7E)
    && (forall i, j :: 0 <= i < j < |name| && j == i + 1 ==> !Separator(name[i]) || !Separator(name[j]))
  }

  // ----- Writing -----

  /** A text in lines of so many characters. */
  function WrapLines(text: Text, wrap: nat): (lines: seq<Text>)
    requires wrap > 0
    decreases |text|
  {
    if text == [] then [] else if |text| <= wrap then [text] else [text[..wrap]] + WrapLines(text[wrap..], wrap)
  }

  function BeginLine(name: Text): (line: Text) {
    BEGIN + name + DASHES
  }

  function EndLine(name: Text): (line: Text) {
    END + name + DASHES
  }

  function BlockLines(block: Block, wrap: nat): (lines: seq<Text>)
    requires wrap > 0
  {
    [BeginLine(block.name)] + WrapLines(Encoded(block.bytes), wrap) + [EndLine(block.name)]
  }

  /** The text of a block. */
  function BlockText(block: Block, wrap: nat): (text: Text)
    requires wrap > 0
  {
    Ended(BlockLines(block, wrap))
  }

  function LineCount(body: nat, wrap: nat): (lines: nat)
    requires wrap > 0
  {
    (body + (wrap - 1)) / wrap
  }

  function BlockLength(name: nat, bytes: nat, wrap: nat): (n: nat)
    requires wrap > 0
  {
    |BEGIN| + |END| + |DASHES| * 2 + 2 + name * 2 + EncodedLength(bytes) + LineCount(EncodedLength(bytes), wrap)
  }

  // ----- Reading -----

  /** Where the first line framed by an opening stands, or the number of lines. */
  function Find(lines: seq<Text>, opening: Text): (k: nat)
    ensures k <= |lines|
    ensures forall i :: 0 <= i < k ==> Framed(lines[i], opening).None?
    ensures k < |lines| ==> Framed(lines[k], opening).Some?
  {
    if lines == [] || Framed(lines[0], opening).Some? then 0 else 1 + Find(lines[1..], opening)
  }

  /** What the lines between the frame lines hold. */
  ghost function BodyReads(lines: seq<Text>, room: nat, wrap: nat, exact: bool): (r: Result<seq<Byte>, Error>) {
    if lines == [] || lines == [[]] then Err(EmptyPayload)
    else if room < Needed(Joined(lines)) then Err(BufferTooSmall)
    else
      var s :- Fed(START, lines, wrap, exact, room);
      Finished(s)
  }

  /** What the lines behind a begin line hold. */
  ghost function BlockReads(name: Text, lines: seq<Text>, room: nat, wrap: nat, exact: bool)
    : (r: Result<Block, Error>) {
    var end := Find(lines, END);
    if end == |lines| then Err(MissingEnd)
    else if Framed(lines[end], END) != Some(name) then Err(LabelMismatch)
    else if !AllEmpty(lines[end + 1..]) then Err(TrailingData)
    else
      var bytes :- BodyReads(lines[..end], room, wrap, exact);
      Ok(Block(name, bytes))
  }

  ghost predicate AllEmpty(lines: seq<Text>) {
    forall k :: 0 <= k < |lines| ==> lines[k] == []
  }

  /** What a text in lines holds. */
  ghost function LinesRead(lines: seq<Text>, room: nat, wrap: nat, exact: bool): (r: Result<Block, Error>) {
    var begin := Find(lines, BEGIN);
    if begin == |lines| then Err(MissingBegin)
    else
      var name := Framed(lines[begin], BEGIN).value;
      if !LabelAllowed(name) then Err(Label)
      else BlockReads(name, lines[begin + 1..], room, wrap, exact)
  }

  // ----- What reading leaves in the buffer, accepted or not -----

  ghost function BodyWrites(lines: seq<Text>, room: nat, wrap: nat, exact: bool): (bytes: seq<Byte>)
    ensures |bytes| <= room
    ensures BodyReads(lines, room, wrap, exact).Ok? ==> bytes == BodyReads(lines, room, wrap, exact).value
  {
    if lines == [] || lines == [[]] || room < Needed(Joined(lines)) then []
    else FedBytes(START, lines, wrap, exact, room)
  }

  ghost function BlockWrites(name: Text, lines: seq<Text>, room: nat, wrap: nat, exact: bool): (bytes: seq<Byte>)
    ensures |bytes| <= room
    ensures BlockReads(name, lines, room, wrap, exact).Ok? ==>
              bytes == BlockReads(name, lines, room, wrap, exact).value.bytes
  {
    var end := Find(lines, END);
    if end == |lines| || Framed(lines[end], END) != Some(name) || !AllEmpty(lines[end + 1..]) then []
    else BodyWrites(lines[..end], room, wrap, exact)
  }

  /** Nothing as long as the frame is not found whole, then the quanta before the first refused one. */
  ghost function LinesWrite(lines: seq<Text>, room: nat, wrap: nat, exact: bool): (bytes: seq<Byte>)
    ensures |bytes| <= room
  {
    var begin := Find(lines, BEGIN);
    if begin == |lines| || !LabelAllowed(Framed(lines[begin], BEGIN).value) then []
    else BlockWrites(Framed(lines[begin], BEGIN).value, lines[begin + 1..], room, wrap, exact)
  }

  /** What is read is what is written. */
  lemma {:induction false} ReadIsWritten(lines: seq<Text>, room: nat, wrap: nat, exact: bool)
    requires LinesRead(lines, room, wrap, exact).Ok?
    ensures LinesWrite(lines, room, wrap, exact) == LinesRead(lines, room, wrap, exact).value.bytes
  {
    hide Framed, Find, LabelAllowed, BlockReads, BlockWrites;
  }
}
