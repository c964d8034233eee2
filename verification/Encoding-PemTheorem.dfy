/** Which texts are read, and as what. */
module PemTheorem {

  import opened Wrappers
  import opened Words
  import opened EncodingTypes
  import opened Base64Spec
  import opened TextLines
  import opened BodyStream
  import opened PemSpec

  /** A body is read as bytes exactly when its lines may stand there and join to the encoding of the bytes. */
  lemma {:induction false} BodyReadsExactly(lines: seq<Text>, room: nat, wrap: nat, exact: bool, bytes: seq<Byte>)
    ensures BodyReads(lines, room, wrap, exact) == Ok(bytes)
            <==> lines != [] && lines != [[]] && LinesFit(lines, wrap, exact)
                 && Joined(lines) == Encoded(bytes) && |bytes| <= room
  {
    hide LinesFit, PushedAll, Decoded, Encoded, Fed, Needed, Joined;
    var text := Joined(lines);
    DecodingIsCanonical(text, room, bytes);
    StreamIsWhole(text, room, bytes);
    if lines != [] {
      StartHolds(room);
      if BodyReads(lines, room, wrap, exact) == Ok(bytes) {
        FedIsPushed(START, lines, wrap, exact, room, Fed(START, lines, wrap, exact, room).value);
      }
      if LinesFit(lines, wrap, exact) && text == Encoded(bytes) && |bytes| <= room {
        FedIsPushed(START, lines, wrap, exact, room, PushedAll(START, text, room).value);
        EncodedNeeds(bytes);
      }
    }
  }

  /** An encoding needs room for its bytes and no more. */
  lemma {:induction false} EncodedNeeds(bytes: seq<Byte>)
    ensures Needed(Encoded(bytes)) == |bytes|
  {
    hide Encoded;
    var text, p := Encoded(bytes), PadFor(|bytes|);
    EncodedTakes(bytes);
    if bytes != [] {
      EncodedPads(bytes);
      assert text[|text| - p - 1] != PAD;
      RunIs(text, p);
    }
  }

  /** The lines of a text are a block: what stands before it, its frame lines, its body, and nothing after. */
  ghost predicate IsBlock(lines: seq<Text>, begin: nat, end: nat, name: Text) {
    && begin < end < |lines|
    && LabelAllowed(name)
    && (forall k :: 0 <= k < begin ==> Framed(lines[k], BEGIN).None?)
    && lines[begin] == BeginLine(name)
    && (forall k :: begin < k < end ==> Framed(lines[k], END).None?)
    && lines[end] == EndLine(name)
    && (forall k :: end < k < |lines| ==> lines[k] == [])
  }

  ghost predicate Holds(lines: seq<Text>, begin: nat, end: nat, block: Block, wrap: nat, exact: bool) {
    && IsBlock(lines, begin, end, block.name)
    && begin + 1 < end
    && LinesFit(lines[begin + 1..end], wrap, exact)
    && Joined(lines[begin + 1..end]) == Encoded(block.bytes)
  }

  lemma {:induction false} FindIs(lines: seq<Text>, opening: Text, k: nat)
    requires k < |lines| && Framed(lines[k], opening).Some?
    requires forall i :: 0 <= i < k ==> Framed(lines[i], opening).None?
    ensures Find(lines, opening) == k
  {
    if k > 0 {
      FindIs(lines[1..], opening, k - 1);
    }
  }

  lemma FramedIs(opening: Text, name: Text)
    ensures Framed(opening + name + DASHES, opening) == Some(name)
  {
    var line := opening + name + DASHES;
    var framed := Framed(line, opening);
    assert line[|opening|..|line| - |DASHES|] == name;
  }

  lemma {:induction false} HoldsIsRead(lines: seq<Text>, begin: nat, end: nat, block: Block, room: nat, wrap: nat,
      exact: bool)
    requires Holds(lines, begin, end, block, wrap, exact) && |block.bytes| <= room
    ensures LinesRead(lines, room, wrap, exact) == Ok(block)
  {
    hide Framed, LabelAllowed, BodyReads, Joined, Encoded;
    var name := block.name;
    FramedIs(BEGIN, name);
    FramedIs(END, name);
    FindIs(lines, BEGIN, begin);
    var after := lines[begin + 1..];
    var k := end - begin - 1;
    assert after[k] == lines[end];
    assert forall i :: 0 <= i < k ==> after[i] == lines[begin + 1 + i];
    FindIs(after, END, k);
    assert after[..k] == lines[begin + 1..end];
    assert after[k + 1..] == lines[end + 1..];
    NotOneEmpty(after[..k], wrap, exact);
    BodyReadsExactly(after[..k], room, wrap, exact, block.bytes);
  }

  lemma NotOneEmpty(lines: seq<Text>, wrap: nat, exact: bool)
    requires LinesFit(lines, wrap, exact)
    ensures lines != [[]]
  {
    if |lines| == 1 {
      assert LineFits(lines[0], wrap, exact, true);
    }
  }

  lemma {:induction false} ReadIsHeld(lines: seq<Text>, block: Block, room: nat, wrap: nat, exact: bool)
    requires LinesRead(lines, room, wrap, exact) == Ok(block)
    ensures |block.bytes| <= room
    ensures var begin := Find(lines, BEGIN);
            && begin < |lines|
            && Holds(lines, begin, begin + 1 + Find(lines[begin + 1..], END), block, wrap, exact)
  {
    hide LabelAllowed, BodyReads, Joined, Encoded, LinesFit, Framed, IsBlock, Find, AllEmpty;
    var begin := Find(lines, BEGIN);
    var after := lines[begin + 1..];
    var k := Find(after, END);
    FoundIsBlock(lines, begin, k, block.name);
    BodyReadsExactly(after[..k], room, wrap, exact, block.bytes);
  }

  lemma {:induction false} FoundIsBlock(lines: seq<Text>, begin: nat, k: nat, name: Text)
    requires begin == Find(lines, BEGIN) < |lines| && k == Find(lines[begin + 1..], END) < |lines[begin + 1..]|
    requires Framed(lines[begin], BEGIN) == Some(name) && Framed(lines[begin + 1..][k], END) == Some(name)
    requires LabelAllowed(name) && AllEmpty(lines[begin + 1..][k + 1..])
    ensures IsBlock(lines, begin, begin + 1 + k, name)
    ensures lines[begin + 1..][..k] == lines[begin + 1..begin + 1 + k]
  {
    hide LabelAllowed, Framed;
    var after, end := lines[begin + 1..], begin + 1 + k;
    assert after[k] == lines[end];
    forall i | begin < i < end ensures Framed(lines[i], END).None? {
      assert after[i - begin - 1] == lines[i];
    }
    forall i | end < i < |lines| ensures lines[i] == [] {
      assert after[k + 1..][i - end - 1] == lines[i];
    }
  }

  /** A text is read as a block exactly when its lines hold that block. */
  lemma {:induction false} ReadsExactly(lines: seq<Text>, block: Block, room: nat, wrap: nat, exact: bool)
    ensures LinesRead(lines, room, wrap, exact) == Ok(block)
            <==> |block.bytes| <= room && exists begin, end :: Holds(lines, begin, end, block, wrap, exact)
  {
    hide LinesRead, Holds;
    if LinesRead(lines, room, wrap, exact) == Ok(block) {
      ReadIsHeld(lines, block, room, wrap, exact);
    }
    if |block.bytes| <= room && exists begin, end :: Holds(lines, begin, end, block, wrap, exact) {
      var begin, end :| Holds(lines, begin, end, block, wrap, exact);
      HoldsIsRead(lines, begin, end, block, room, wrap, exact);
    }
  }

  // ----- Wrapping -----

  lemma {:induction false} WrapJoins(text: Text, wrap: nat)
    requires wrap > 0
    ensures Joined(WrapLines(text, wrap)) == text
    decreases |text|
  {
    if 0 < |text| <= wrap {
      assert Joined([text]) == text + Joined([]);
    } else if |text| > wrap {
      WrapJoins(text[wrap..], wrap);
      assert text == text[..wrap] + text[wrap..];
    }
  }

  /** Lines of a width fit any greater one; a strict reader wants the width itself, and one that parts no quantum. */
  predicate WidthFits(wrap: nat, longest: nat, exact: bool) {
    0 < wrap && if exact then longest == wrap && wrap % 4 == 0 else wrap <= longest
  }

  lemma {:induction false} WrapFits(text: Text, pad: nat, wrap: nat, longest: nat, exact: bool)
    requires WidthFits(wrap, longest, exact)
    requires |text| % 4 == 0 && pad <= 2 && PaddedBy(text, pad)
    ensures LinesFit(WrapLines(text, wrap), longest, exact)
    decreases |text|
  {
    hide LinesFit;
    var lines := WrapLines(text, wrap);
    if |text| == 0 {
      NoLinesFit(lines, longest, exact);
    } else {
      FitFirst(lines, longest, exact);
      if |text| <= wrap {
        NoLinesFit(lines[1..], longest, exact);
      } else {
        assert lines[1..] == WrapLines(text[wrap..], wrap);
        if exact {
          WrapRest(text, pad, wrap);
          WrapFits(text[wrap..], pad, wrap, longest, exact);
        } else {
          LaxFits(text[wrap..], wrap, longest);
        }
      }
    }
  }

  lemma {:induction false} LaxFits(text: Text, wrap: nat, longest: nat)
    requires 0 < wrap <= longest
    ensures LinesFit(WrapLines(text, wrap), longest, false)
    decreases |text|
  {
    if |text| > wrap {
      LaxFits(text[wrap..], wrap, longest);
    }
  }

  lemma {:induction false} WrapRest(text: Text, pad: nat, wrap: nat)
    requires wrap % 4 == 0 && wrap < |text| && |text| % 4 == 0 && pad <= 2 && PaddedBy(text, pad)
    ensures PAD !in text[..wrap] && |text[wrap..]| % 4 == 0 && PaddedBy(text[wrap..], pad)
  {
    var rest := text[wrap..];
    forall i | 0 <= i < |rest| ensures rest[i] == PAD <==> i >= |rest| - pad {
      assert rest[i] == text[wrap + i];
    }
    forall i | 0 <= i < wrap ensures text[..wrap][i] != PAD {
      assert text[..wrap][i] == text[i];
    }
  }

  /** Exact lines can be laid out in one way. */
  lemma {:induction false} ExactLinesAreWrapped(lines: seq<Text>, wrap: nat)
    requires wrap > 0 && LinesFit(lines, wrap, true)
    ensures lines == WrapLines(Joined(lines), wrap)
  {
    hide LinesFit;
    if lines != [] {
      FitFirst(lines, wrap, true);
      ExactLinesAreWrapped(lines[1..], wrap);
      var text := Joined(lines);
      if |lines| == 1 {
        assert Joined(lines[1..]) == [];
        assert text == lines[0];
      } else {
        FitFirst(lines[1..], wrap, true);
        assert Joined(lines[1..]) == lines[1] + Joined(lines[1..][1..]);
        assert text[..wrap] == lines[0] && text[wrap..] == Joined(lines[1..]);
        assert |text| > wrap;
      }
    }
  }

  // ----- The lines of a written block -----

  /** Characters of Base64: no break, and no hyphen a frame line could start with. */
  ghost predicate Coded(text: Text) {
    forall i :: 0 <= i < |text| ==> text[i] == PAD || Value(text[i]).Some?
  }

  lemma {:induction false} EncodedIsCoded(bytes: seq<Byte>)
    ensures Coded(Encoded(bytes))
  {
    if |bytes| > 3 {
      EncodedIsCoded(bytes[3..]);
      EncodedIsCoded(bytes[..3]);
      assert Encoded(bytes[..3]) == Group(bytes[..3]);
    }
  }

  lemma {:induction false} CodedLines(text: Text, wrap: nat)
    requires wrap > 0 && Coded(text)
    ensures AllPlain(WrapLines(text, wrap))
    ensures forall k :: 0 <= k < |WrapLines(text, wrap)| ==> Framed(WrapLines(text, wrap)[k], END).None?
    decreases |text|
  {
    if 0 < |text| <= wrap {
      CodedLine(text);
    } else if |text| > wrap {
      CodedLine(text[..wrap]);
      CodedLines(text[wrap..], wrap);
    }
  }

  lemma {:induction false} CodedLine(line: Text)
    requires Coded(line)
    ensures Plain(line) && Framed(line, END).None?
  {
    assert END[0] == 45;
    if line != [] {
      assert line[0] != 45;
    }
  }

  lemma {:induction false} FrameIsPlain(name: Text)
    requires LabelAllowed(name)
    ensures Plain(BeginLine(name)) && Plain(EndLine(name))
  {
  }

  lemma {:induction false} BlockLinesPlain(block: Block, wrap: nat)
    requires wrap > 0 && LabelAllowed(block.name)
    ensures AllPlain(BlockLines(block, wrap))
  {
    hide Plain, LabelAllowed, WrapLines, Encoded, BeginLine, EndLine, Coded;
    FrameIsPlain(block.name);
    EncodedIsCoded(block.bytes);
    CodedLines(Encoded(block.bytes), wrap);
  }

  /** Explanatory text: nothing, or lines that end in a break and are not begin lines. */
  ghost predicate Preamble(text: Text) {
    && (text != [] ==> IsBreak(text[|text| - 1]))
    && (forall k :: 0 <= k < |LinesOf(text)| ==> Framed(LinesOf(text)[k], BEGIN).None?)
  }

  lemma {:induction false} LinesOfBlock(preamble: Text, block: Block, wrap: nat) returns (before: seq<Text>)
    requires wrap > 0 && LabelAllowed(block.name) && Preamble(preamble)
    ensures LinesOf(preamble + BlockText(block, wrap)) == before + BlockLines(block, wrap) + [[]]
    ensures forall k :: 0 <= k < |before| ==> Framed(before[k], BEGIN).None?
  {
    hide LinesOf, Framed, LabelAllowed, BlockLines;
    BlockLinesPlain(block, wrap);
    LinesOfEnded(BlockLines(block, wrap));
    var text := BlockText(block, wrap);
    if preamble == [] {
      before := [];
      assert preamble + text == text;
      assert before + BlockLines(block, wrap) + [[]] == BlockLines(block, wrap) + [[]];
    } else {
      BlockTextStarts(block, wrap);
      LinesBehind(preamble, text);
      before := LinesOf(preamble)[..|LinesOf(preamble)| - 1];
      assert before + BlockLines(block, wrap) + [[]] == before + (BlockLines(block, wrap) + [[]]);
    }
  }

  lemma {:induction false} BlockTextStarts(block: Block, wrap: nat)
    requires wrap > 0
    ensures BlockText(block, wrap) != [] && BlockText(block, wrap)[0] != LF
  {
    hide WrapLines;
    assert BlockLines(block, wrap)[0] == BeginLine(block.name);
    assert BeginLine(block.name)[0] == 45;
  }

  /** What is written is read back, at that width or a greater one, behind any explanatory text. */
  lemma {:induction false} RoundTrip(preamble: Text, block: Block, wrap: nat, longest: nat, exact: bool, room: nat)
    requires Preamble(preamble) && LabelAllowed(block.name) && block.bytes != [] && |block.bytes| <= room
    requires WidthFits(wrap, longest, exact)
    ensures LinesRead(LinesOf(preamble + BlockText(block, wrap)), room, longest, exact) == Ok(block)
  {
    hide LinesOf, LinesRead, Framed, LabelAllowed, LinesFit, BlockText, Preamble;
    var before := LinesOfBlock(preamble, block, wrap);
    var lines := LinesOf(preamble + BlockText(block, wrap));
    BlockHolds(before, block, wrap, longest, exact, lines);
    HoldsIsRead(lines, |before|, |lines| - 2, block, room, longest, exact);
  }

  lemma {:induction false} BlockHolds(before: seq<Text>, block: Block, wrap: nat, longest: nat, exact: bool,
      lines: seq<Text>)
    requires LabelAllowed(block.name) && block.bytes != [] && WidthFits(wrap, longest, exact)
    requires forall k :: 0 <= k < |before| ==> Framed(before[k], BEGIN).None?
    requires lines == before + BlockLines(block, wrap) + [[]]
    ensures Holds(lines, |before|, |lines| - 2, block, longest, exact)
  {
    hide Framed, LabelAllowed, LinesFit, WrapLines, Encoded, Joined, BeginLine, EndLine, PaddedBy, Coded;
    var text := Encoded(block.bytes);
    var body := WrapLines(text, wrap);
    var begin, end := |before|, |before| + 1 + |body|;
    assert lines[begin + 1..end] == body;
    assert forall k :: 0 <= k < begin ==> lines[k] == before[k];
    assert lines[begin] == BeginLine(block.name);
    assert lines[end] == EndLine(block.name);
    EncodedIsCoded(block.bytes);
    CodedLines(text, wrap);
    forall k | begin < k < end ensures Framed(lines[k], END).None? {
      assert lines[k] == body[k - begin - 1];
    }
    EncodedPads(block.bytes);
    WrapFits(text, PadFor(|block.bytes|), wrap, longest, exact);
    WrapJoins(text, wrap);
    BodyIsThere(block.bytes, wrap);
  }

  lemma {:induction false} BodyIsThere(bytes: seq<Byte>, wrap: nat)
    requires bytes != [] && wrap > 0
    ensures WrapLines(Encoded(bytes), wrap) != []
  {
    EncodedTakes(bytes);
  }

  /** The lines of a block in the strict form stand in a text. */
  ghost predicate StandsIn(lines: seq<Text>, begin: nat, end: nat, block: Block) {
    IsBlock(lines, begin, end, block.name) && lines[begin..end + 1] == BlockLines(block, LINE)
  }

  /**
   * The strict reader accepts a text exactly when the block's own lines stand in it,
   * with no begin line before them and only empty lines after: a block has one text.
   */
  lemma {:induction false} StrictIsOneText(lines: seq<Text>, block: Block, room: nat)
    ensures LinesRead(lines, room, LINE, true) == Ok(block)
            <==> && block.bytes != [] && |block.bytes| <= room
                 && exists begin, end :: StandsIn(lines, begin, end, block)
  {
    hide LinesRead, StandsIn, Holds, LinesFit, WrapLines, Encoded, Joined;
    ReadsExactly(lines, block, room, LINE, true);
    if exists begin, end :: Holds(lines, begin, end, block, LINE, true) {
      var begin, end :| Holds(lines, begin, end, block, LINE, true);
      StrictLines(lines, begin, end, block);
    }
    if block.bytes != [] && exists begin, end :: StandsIn(lines, begin, end, block) {
      var begin, end :| StandsIn(lines, begin, end, block);
      LinesStrict(lines, begin, end, block);
    }
  }

  lemma {:induction false} StrictLines(lines: seq<Text>, begin: nat, end: nat, block: Block)
    requires Holds(lines, begin, end, block, LINE, true)
    ensures StandsIn(lines, begin, end, block) && block.bytes != []
  {
    hide Framed, LabelAllowed, LinesFit, WrapLines;
    var body := lines[begin + 1..end];
    ExactLinesAreWrapped(body, LINE);
    assert lines[begin..end + 1] == [lines[begin]] + body + [lines[end]];
    FitFirst(body, LINE, true);
    assert Joined(body) != [];
  }

  lemma {:induction false} LinesStrict(lines: seq<Text>, begin: nat, end: nat, block: Block)
    requires StandsIn(lines, begin, end, block) && block.bytes != []
    ensures Holds(lines, begin, end, block, LINE, true)
  {
    hide Framed, LabelAllowed, LinesFit, WrapLines, Encoded, Joined, BeginLine, EndLine, PaddedBy;
    var text := Encoded(block.bytes);
    var body := WrapLines(text, LINE);
    var own := lines[begin..end + 1];
    assert |own| == |body| + 2 && own[1..|own| - 1] == body;
    forall k | 0 <= k < |body| ensures lines[begin + 1..end][k] == body[k] {
      assert own[k + 1] == lines[begin + 1 + k];
    }
    assert lines[begin + 1..end] == body;
    EncodedPads(block.bytes);
    WrapFits(text, PadFor(|block.bytes|), LINE, LINE, true);
    WrapJoins(text, LINE);
    BodyIsThere(block.bytes, LINE);
  }
}
