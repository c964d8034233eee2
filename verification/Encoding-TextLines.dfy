/** Texts as sequences of lines: splitting, joining, and what stands between two of them. Every text has a
    last line, which is empty behind a final break. */
module TextLines {

  import opened Wrappers
  import opened Words
  import opened EncodingTypes

  const CR: Byte := 13
  const LF: Byte := 10

  predicate IsBreak(c: Byte) {
    c == CR || c == LF
  }

  predicate Plain(line: Text) {
    forall i :: 0 <= i < |line| ==> !IsBreak(line[i])
  }

  /** Where the first break stands, or the length of the text. */
  function Position(text: Text): (p: nat)
    ensures p <= |text| && Plain(text[..p])
    ensures p < |text| ==> IsBreak(text[p])
  {
    if text == [] || IsBreak(text[0]) then 0
    else
      var p := Position(text[1..]);
      assert text[..p + 1] == [text[0]] + text[1..][..p];
      p + 1
  }

  lemma {:induction false} PositionIs(text: Text, p: nat)
    requires p < |text| && Plain(text[..p]) && IsBreak(text[p])
    ensures Position(text) == p
  {
    if p > 0 {
      assert text[..p][0] == text[0];
      assert text[1..][..p - 1] == text[..p][1..];
      PositionIs(text[1..], p - 1);
    }
  }

  lemma {:induction false} PositionOfPlain(text: Text)
    requires Plain(text)
    ensures Position(text) == |text|
  {
  }

  /** The first break. */
  function Break(text: Text): (brk: Text)
    requires Position(text) < |text|
    ensures 1 <= |brk| <= 2 && Position(text) + |brk| <= |text|
  {
    var p := Position(text);
    if text[p] == CR && p + 1 < |text| && text[p + 1] == LF then [CR, LF] else [text[p]]
  }

  /** What follows the first break. */
  function Rest(text: Text): (rest: Text)
    requires Position(text) < |text|
    ensures |rest| < |text|
  {
    text[Position(text) + |Break(text)|..]
  }

  function LinesOf(text: Text): (lines: seq<Text>)
    ensures |lines| > 0
    decreases |text|
  {
    var p := Position(text);
    if p == |text| then [text] else [text[..p]] + LinesOf(Rest(text))
  }

  /** A break that the text behind it does not lengthen. */
  predicate Breaks(brk: Text, text: Text) {
    && (brk == [CR] || brk == [LF] || brk == [CR, LF])
    && (brk == [CR] && text != [] ==> text[0] != LF)
  }

  lemma {:induction false} Glued(text: Text, p: nat, part: Text)
    requires p + |part| <= |text| && text[p..p + |part|] == part
    ensures text == text[..p] + part + text[p + |part|..]
  {
  }

  lemma {:induction false} CutBreak(text: Text)
    requires Position(text) < |text|
    ensures Breaks(Break(text), Rest(text))
    ensures text == text[..Position(text)] + Break(text) + Rest(text)
  {
    hide Position;
    Glued(text, Position(text), Break(text));
  }

  /** A text with a break is a line, a break and a rest. */
  lemma {:induction false} Cut(text: Text)
    requires Position(text) < |text|
    ensures var line := text[..Position(text)];
            && Plain(line)
            && Breaks(Break(text), Rest(text))
            && text == line + Break(text) + Rest(text)
            && LinesOf(text) == [line] + LinesOf(Rest(text))
  {
    hide Position;
    CutBreak(text);
  }

  lemma {:induction false} BreaksBefore(brk: Text, rest: Text, other: Text)
    requires Breaks(brk, rest)
    requires other == [] || other[0] == (if rest == [] then other[0] else rest[0])
    requires rest == [] && other != [] ==> other[0] != LF
    ensures Breaks(brk, other)
  {
  }

  lemma {:induction false} PlainLine(line: Text)
    requires Plain(line)
    ensures LinesOf(line) == [line]
  {
    PositionOfPlain(line);
  }

  /** A line, a break and a rest are cut there. */
  lemma {:induction false} Pasted(line: Text, brk: Text, rest: Text)
    requires Plain(line) && Breaks(brk, rest)
    ensures LinesOf(line + brk + rest) == [line] + LinesOf(rest)
  {
    var whole := line + brk + rest;
    assert whole[..|line|] == line;
    assert whole[|line|] == brk[0];
    PositionIs(whole, |line|);
    assert Rest(whole) == rest;
  }

  /** An iterator over lines: what it has yet to yield is a list of them. */
  class Lines {

    var rest: Text
    var done: bool

    ghost function Remaining(): (lines: seq<Text>)
      reads this
    {
      if done then [] else LinesOf(rest)
    }

    constructor (input: Text)
      ensures rest == input && !done
      ensures Remaining() == LinesOf(input)
    {
      rest, done := input, false;
    }

    method Next() returns (line: Option<Text>)
      modifies this
      ensures old(Remaining()) == [] ==> line == None && Remaining() == []
      ensures old(Remaining()) != [] ==> line == Some(old(Remaining())[0]) && Remaining() == old(Remaining())[1..]
      ensures !done ==> !old(done) && Position(old(rest)) < |old(rest)| && rest == Rest(old(rest))
    {
      if done {
        return None;
      }
      var at := Position(rest);
      if at < |rest| {
        line := Some(rest[..at]);
        rest := Rest(rest);
      } else {
        line := Some(rest);
        done := true;
        rest := [];
      }
    }
  }

  // ----- Texts made of lines -----

  function Joined(lines: seq<Text>): (text: Text) {
    if lines == [] then [] else lines[0] + Joined(lines[1..])
  }

  /** Every line with an LF after it. */
  function Ended(lines: seq<Text>): (text: Text) {
    if lines == [] then [] else lines[0] + [LF] + Ended(lines[1..])
  }

  lemma {:induction false} EndedAppend(front: seq<Text>, back: seq<Text>)
    ensures Ended(front + back) == Ended(front) + Ended(back)
  {
    if front == [] {
      assert front + back == back;
    } else {
      EndedAppend(front[1..], back);
      assert (front + back)[1..] == front[1..] + back;
      Regroup(front[0], [LF], Ended(front[1..]), Ended(back));
    }
  }

  ghost predicate AllPlain(lines: seq<Text>) {
    forall k :: 0 <= k < |lines| ==> Plain(lines[k])
  }

  /** Splitting undoes writing lines out. */
  lemma {:induction false} LinesOfEnded(lines: seq<Text>)
    requires AllPlain(lines)
    ensures LinesOf(Ended(lines)) == lines + [[]]
  {
    if lines == [] {
      assert LinesOf([]) == [[]] == lines + [[]];
    } else {
      hide LinesOf, Position, Rest;
      Pasted(lines[0], [LF], Ended(lines[1..]));
      LinesOfEnded(lines[1..]);
      assert [lines[0]] + (lines[1..] + [[]]) == lines + [[]];
    }
  }

  /** A text put behind one that ends in a break adds its lines to it. */
  lemma {:induction false} LinesBehind(front: Text, text: Text)
    requires front != [] && IsBreak(front[|front| - 1])
    requires text == [] || text[0] != LF
    ensures LinesOf(front)[|LinesOf(front)| - 1] == []
    ensures LinesOf(front + text) == LinesOf(front)[..|LinesOf(front)| - 1] + LinesOf(text)
    decreases |front|
  {
    hide LinesOf, Position, Rest, Break, Plain, Breaks;
    BreakIsThere(front);
    Cut(front);
    var line, brk, rest := front[..Position(front)], Break(front), Rest(front);
    Regroup(line, brk, rest, text);
    if rest == [] {
      assert rest + text == text;
      assert Breaks(brk, text) by {
        BreaksBefore(brk, rest, text);
      }
      Pasted(line, brk, text);
      PlainLine([]);
      assert [line] + [[]] == [line, []];
    } else {
      assert rest[|rest| - 1] == front[|front| - 1];
      BreaksBefore(brk, rest, rest + text);
      Pasted(line, brk, rest + text);
      LinesBehind(rest, text);
      LinesShift(line, LinesOf(rest), LinesOf(text));
    }
  }

  lemma {:induction false} BreakIsThere(text: Text)
    requires text != [] && IsBreak(text[|text| - 1])
    ensures Position(text) < |text|
  {
    hide Position;
    assert text[..|text|] == text;
    assert !Plain(text);
  }

  lemma {:induction false} Regroup(a: Text, b: Text, c: Text, d: Text)
    ensures a + b + c + d == a + b + (c + d)
  {
  }

  lemma {:induction false} LinesShift(line: Text, rest: seq<Text>, more: seq<Text>)
    requires rest != []
    ensures var lines := [line] + rest;
            && lines[|lines| - 1] == rest[|rest| - 1]
            && [line] + (rest[..|rest| - 1] + more) == lines[..|lines| - 1] + more
  {
    var lines := [line] + rest;
    assert lines[..|lines| - 1] == [line] + rest[..|rest| - 1];
  }

  // ----- A run of lines as a part of the text -----

  /** The text after so many of its lines. */
  function Skip(text: Text, n: nat): (rest: Text)
    requires n < |LinesOf(text)|
    ensures |rest| <= |text| && (n > 0 ==> |rest| < |text|)
    ensures LinesOf(rest) == LinesOf(text)[n..]
    decreases n
  {
    if n == 0 then text else Skip(Rest(text), n - 1)
  }

  lemma {:induction false} SkipNext(text: Text, n: nat)
    requires n + 1 < |LinesOf(text)|
    ensures var rest := Skip(text, n); Position(rest) < |rest| && Rest(rest) == Skip(text, n + 1)
    decreases n
  {
    if n > 0 {
      SkipNext(Rest(text), n - 1);
    }
  }

  /** A text without the break it ends in. */
  function Strip(text: Text): (rest: Text)
    ensures rest <= text
  {
    var shorter := if |text| > 0 && text[|text| - 1] == LF then text[..|text| - 1] else text;
    if |shorter| > 0 && shorter[|shorter| - 1] == CR then shorter[..|shorter| - 1] else shorter
  }

  /** The stretch of a text that holds its first `n` lines. */
  function Span(text: Text, n: nat): (span: Text)
    requires n < |LinesOf(text)|
  {
    text[..|text| - |Skip(text, n)|]
  }

  lemma {:induction false} SpanAndSkip(text: Text, n: nat)
    requires n < |LinesOf(text)|
    ensures text == Span(text, n) + Skip(text, n)
    ensures n > 0 ==> Span(text, n) == text[..Position(text)] + Break(text) + Span(Rest(text), n - 1)
    decreases n
  {
    if n > 0 {
      hide LinesOf, Position, Rest, Break, Breaks;
      Cut(text);
      SpanAndSkip(Rest(text), n - 1);
      Front(text, text[..Position(text)] + Break(text), Span(Rest(text), n - 1), Skip(text, n));
    }
  }

  lemma {:induction false} Front(text: Text, a: Text, b: Text, c: Text)
    requires text == a + (b + c)
    ensures text == (a + b) + c && text[..|text| - |c|] == a + b
  {
  }

  lemma {:induction false} StripPlain(line: Text, brk: Text)
    requires Plain(line) && Breaks(brk, [])
    ensures Strip(line + brk) == line
  {
    assert |line| > 0 ==> !IsBreak(line[|line| - 1]);
    assert line + [CR, LF] == line + [CR] + [LF];
    assert (line + brk)[..|line|] == line;
  }

  /**
   * Splitting the stripped stretch gives its lines back. The stretch is followed by a
   * character other than LF, so its last break is a whole one.
   */
  lemma {:induction false} SpanLines(text: Text, n: nat)
    requires 0 < n < |LinesOf(text)|
    requires Skip(text, n) == [] || Skip(text, n)[0] != LF
    ensures LinesOf(Strip(Span(text, n))) == LinesOf(text)[..n]
    decreases n
  {
    hide LinesOf, Position, Rest, Break, Breaks, Plain, Strip, Span, Skip;
    SkipStep(text, n);
    Cut(text);
    SpanAndSkip(text, n);
    var line, brk, rest := text[..Position(text)], Break(text), Rest(text);
    if n == 1 {
      SpanNone(rest);
      assert line + brk + [] == line + brk;
      BreaksBefore(brk, rest, []);
      StripPlain(line, brk);
      PlainLine(line);
    } else {
      var span := Span(rest, n - 1);
      SpanFirst(rest, n - 1);
      BreaksBefore(brk, rest, span);
      StripBehind(line, brk, span);
      BreaksBefore(brk, span, Strip(span));
      Pasted(line, brk, Strip(span));
      SpanLines(rest, n - 1);
    }
    assert ([line] + LinesOf(rest))[..n] == [line] + LinesOf(rest)[..n - 1];
  }

  lemma {:induction false} SpanNone(text: Text)
    ensures Span(text, 0) == []
  {
  }

  lemma {:induction false} SpanFirst(text: Text, n: nat)
    requires 0 < n < |LinesOf(text)|
    ensures Span(text, n) != [] && text != [] && Span(text, n)[0] == text[0]
  {
  }

  lemma {:induction false} SkipStep(text: Text, n: nat)
    requires 0 < n < |LinesOf(text)|
    ensures Position(text) < |text| && n - 1 < |LinesOf(Rest(text))| && Skip(Rest(text), n - 1) == Skip(text, n)
  {
  }

  lemma {:induction false} StripBehind(line: Text, brk: Text, span: Text)
    requires Breaks(brk, span) && span != []
    ensures Strip(line + brk + span) == line + brk + Strip(span)
  {
    var whole := line + brk + span;
    assert whole[|whole| - 1] == span[|span| - 1];
    if span[|span| - 1] == LF {
      var shorter := span[..|span| - 1];
      assert whole[..|whole| - 1] == line + brk + shorter;
      if shorter == [] {
        assert (line + brk)[|line + brk| - 1] == brk[|brk| - 1] == LF;
      }
    }
  }

  // ----- The characters of a text that are not breaks -----

  function Kept(text: Text): (kept: Text) {
    if text == [] then []
    else if IsBreak(text[0]) then Kept(text[1..]) else [text[0]] + Kept(text[1..])
  }

  lemma {:induction false} KeptAppend(front: Text, back: Text)
    ensures Kept(front + back) == Kept(front) + Kept(back)
  {
    if front == [] {
      assert front + back == back;
    } else {
      KeptAppend(front[1..], back);
      assert (front + back)[1..] == front[1..] + back;
      assert (front + back)[0] == front[0];
      assert [front[0]] + (Kept(front[1..]) + Kept(back)) == [front[0]] + Kept(front[1..]) + Kept(back);
    }
  }

  lemma {:induction false} KeptPlain(text: Text)
    requires Plain(text)
    ensures Kept(text) == text
  {
    if text != [] {
      KeptPlain(text[1..]);
    }
  }

  lemma {:induction false} KeptBreak(brk: Text, rest: Text)
    requires Breaks(brk, rest)
    ensures Kept(brk) == []
  {
    if |brk| == 2 {
      assert brk[1..] == [LF];
      assert [LF][1..] == [];
      assert Kept([LF]) == Kept([]);
    } else {
      assert brk[1..] == [];
    }
  }

  lemma {:induction false} KeptIsJoined(text: Text)
    ensures Kept(text) == Joined(LinesOf(text))
    decreases |text|
  {
    hide LinesOf, Position, Rest, Break, Kept, Plain, Breaks;
    var p := Position(text);
    KeptPlain(text[..p]);
    if p == |text| {
      assert text[..p] == text;
      PlainLine(text);
      assert Joined([text]) == text + Joined([]);
    } else {
      Cut(text);
      var brk, rest := Break(text), Rest(text);
      KeptAppend(text[..p] + brk, rest);
      KeptAppend(text[..p], brk);
      KeptBreak(brk, rest);
      KeptIsJoined(rest);
    }
  }

  lemma {:induction false} OneEmptyLine(text: Text)
    ensures LinesOf(text) == [[]] <==> text == []
  {
  }
}
