/** Writing a block into a buffer, against `BlockText`. The body is encoded as one stretch, and moving its
    lines apart, the last one first, overwrites nothing that is still to be moved. */
module PemWriter {

  import opened Wrappers
  import opened Words
  import opened EncodingTypes
  import opened Base64Spec
  import opened Base64
  import opened TextLines
  import opened PemSpec

  // ----- How long the lines are -----

  lemma CountFirst(body: nat, wrap: nat)
    requires wrap > 0
    ensures LineCount(0, wrap) == 0
    ensures 0 < body <= wrap ==> LineCount(body, wrap) == 1
    ensures body > wrap ==> LineCount(body, wrap) == 1 + LineCount(body - wrap, wrap)
  {
    if body > 0 {
      var q, r := (body - 1) / wrap, (body - 1) % wrap;
      assert body - 1 == q * wrap + r;
      Quotient(body + (wrap - 1), wrap, q + 1, r);
      if body > wrap {
        Quotient(body - wrap + (wrap - 1), wrap, q, r);
      } else {
        Quotient(body - 1, wrap, 0, body - 1);
      }
    }
    Quotient(wrap - 1, wrap, 0, wrap - 1);
  }

  lemma Quotient(n: nat, d: nat, q: nat, r: nat)
    requires d > 0 && r < d && n == q * d + r
    ensures n / d == q
  {
    var p := n / d;
    assert n == p * d + n % d;
    assert p < q ==> (p + 1) * d <= q * d;
    assert q < p ==> (q + 1) * d <= p * d;
  }

  lemma {:induction false} WrapCount(text: Text, wrap: nat)
    requires wrap > 0
    ensures |WrapLines(text, wrap)| == LineCount(|text|, wrap)
    ensures |Ended(WrapLines(text, wrap))| == |text| + LineCount(|text|, wrap)
    decreases |text|
  {
    hide LineCount;
    CountFirst(|text|, wrap);
    if 0 < |text| <= wrap {
      assert WrapLines(text, wrap)[1..] == [];
      assert Ended([]) == [];
    } else if |text| > wrap {
      WrapCount(text[wrap..], wrap);
      assert WrapLines(text, wrap)[1..] == WrapLines(text[wrap..], wrap);
    }
  }

  /** A block takes exactly the length asked for it. */
  lemma {:induction false} BlockTakes(block: Block, wrap: nat)
    requires wrap > 0
    ensures |BlockText(block, wrap)| == BlockLength(|block.name|, |block.bytes|, wrap)
  {
    hide WrapLines, Encoded, EncodedLength, LineCount;
    BlockInPieces(block, wrap);
    WrapCount(Encoded(block.bytes), wrap);
    EncodedTakes(block.bytes);
  }

  /** The pieces a block is written in. */
  lemma {:induction false} BlockInPieces(block: Block, wrap: nat)
    requires wrap > 0
    ensures BlockText(block, wrap)
            == BeginLine(block.name) + [LF] + Ended(WrapLines(Encoded(block.bytes), wrap))
                + (EndLine(block.name) + [LF])
  {
    hide WrapLines, Encoded, BeginLine, EndLine;
    var begin, body, end := [BeginLine(block.name)], WrapLines(Encoded(block.bytes), wrap), [EndLine(block.name)];
    EndedAppend(begin + body, end);
    EndedAppend(begin, body);
    EndedOne(BeginLine(block.name));
    EndedOne(EndLine(block.name));
  }

  lemma EndedOne(line: Text)
    ensures Ended([line]) == line + [LF]
  {
    assert Ended([line]) == line + [LF] + Ended([]);
  }

  // ----- Pushing a body apart -----

  /** Moves a stretch of a buffer to a place in it. */
  method CopyWithin(out: array<Byte>, from: nat, end: nat, to: nat)
    requires from <= end <= out.Length && to + (end - from) <= out.Length
    modifies out
    ensures out[..] == Over(old(out[..]), to, old(out[..])[from..end])
  {
    forall k | to <= k < to + (end - from) {
      out[k] := out[from + (k - to)];
    }
  }

  /** Where line number `line` of a body starts. */
  function Edge(body: nat, wrap: nat, line: nat): (start: nat)
    requires wrap > 0
    ensures start <= body
  {
    if line * wrap < body then line * wrap else body
  }

  lemma EdgeStep(body: nat, wrap: nat, line: nat)
    requires wrap > 0 && line < LineCount(body, wrap)
    ensures Edge(body, wrap, line) == line * wrap < body
    ensures Edge(body, wrap, line + 1) == if body - line * wrap < wrap then body else line * wrap + wrap
  {
    var lines, sum := LineCount(body, wrap), body + (wrap - 1);
    assert sum == lines * wrap + sum % wrap;
    assert (line + 1) * wrap <= lines * wrap;
    assert (line + 1) * wrap == line * wrap + wrap;
  }

  lemma EdgeEnds(body: nat, wrap: nat)
    requires wrap > 0
    ensures Edge(body, wrap, LineCount(body, wrap)) == body
    ensures Edge(body, wrap, 0) == 0
  {
    var lines, sum := LineCount(body, wrap), body + (wrap - 1);
    assert sum == lines * wrap + sum % wrap;
    assert 0 * wrap == 0;
  }

  /** The lines of a body from one on, each with its break. */
  function Behind(text: Text, wrap: nat, line: nat): (rest: Text)
    requires wrap > 0
  {
    Ended(WrapLines(text[Edge(|text|, wrap, line)..], wrap))
  }

  /** The lines from one on are that line and the lines behind it. */
  lemma {:induction false} BehindStep(text: Text, wrap: nat, line: nat)
    requires wrap > 0 && line < LineCount(|text|, wrap)
    ensures var start, next := Edge(|text|, wrap, line), Edge(|text|, wrap, line + 1);
            && start <= next
            && Behind(text, wrap, line) == text[start..next] + [LF] + Behind(text, wrap, line + 1)
  {
    hide LineCount, Edge;
    EdgeStep(|text|, wrap, line);
    var start, next := Edge(|text|, wrap, line), Edge(|text|, wrap, line + 1);
    var rest := text[start..];
    if |rest| <= wrap {
      assert next == |text|;
      assert text[next..] == [];
      EndedOne(rest);
      assert Ended([]) == [];
      assert text[start..next] == rest;
      assert rest + [LF] + [] == rest + [LF];
    } else {
      assert rest[..wrap] == text[start..next] && rest[wrap..] == text[next..];
    }
  }

  lemma NothingBehind(text: Text, wrap: nat)
    requires wrap > 0
    ensures Edge(|text|, wrap, LineCount(|text|, wrap)) == |text|
    ensures Behind(text, wrap, LineCount(|text|, wrap)) == []
  {
    EdgeEnds(|text|, wrap);
    assert text[|text|..] == [];
  }

  /** Moving a line in front of those behind it, over a buffer in which it has not moved. */
  lemma {:induction false} LineMoved(was: seq<Byte>, from: nat, line: Text, gap: nat, behind: Text)
    requires from + |line| + gap + 1 + |behind| <= |was|
    requires was[from..from + |line|] == line
    ensures var to := from + gap;
            var broken := Over(was, to + |line| + 1, behind)[to + |line| := LF];
            && broken[from..from + |line|] == line
            && Over(broken, to, line) == Over(was, to, line + [LF] + behind)
  {
  }

  /** Puts a line and its break in front of those behind it. */
  method MoveLine(out: array<Byte>, from: nat, to: nat, length: nat, ghost was: seq<Byte>, ghost behind: Text)
    requires from <= to && to + length + 1 + |behind| <= out.Length == |was|
    requires out[..] == Over(was, to + length + 1, behind)
    modifies out
    ensures out[..] == Over(was, to, was[from..from + length] + [LF] + behind)
  {
    hide Over;
    LineMoved(was, from, was[from..from + length], to - from, behind);
    ghost var before := out[..];
    out[to + length] := LF;
    assert out[..] == before[to + length := LF];
    CopyWithin(out, from, from + length, to);
  }

  method Split(out: array<Byte>, at: nat, body: nat, wrap: nat) returns (end: nat)
    requires wrap > 0 && at + body + LineCount(body, wrap) <= out.Length
    modifies out
    ensures end == at + body + LineCount(body, wrap)
    ensures var text := old(out[..])[at..at + body];
            && |Ended(WrapLines(text, wrap))| == body + LineCount(body, wrap)
            && out[..] == Over(old(out[..]), at, Ended(WrapLines(text, wrap)))
  {
    hide LineCount, Edge, Behind, Over, Ended, WrapLines;
    ghost var was := out[..];
    ghost var text := was[at..at + body];
    var lines := LineCount(body, wrap);
    var line := lines;
    NothingBehind(text, wrap);
    NothingOver(was, at + body + lines);
    while line > 0
      invariant 0 <= line <= lines
      invariant |Behind(text, wrap, line)| == body - Edge(body, wrap, line) + lines - line
      invariant out[..] == Over(was, at + Edge(body, wrap, line) + line, Behind(text, wrap, line))
    {
      line := line - 1;
      EdgeStep(body, wrap, line);
      BehindStep(text, wrap, line);
      var start := line * wrap;
      var length := if body - start < wrap then body - start else wrap;
      var from := at + start;
      var to := from + line;
      Inside(was, at, body, start, start + length);
      MoveLine(out, from, to, length, was, Behind(text, wrap, line + 1));
    }
    WholeBehind(text, wrap);
    end := at + body + lines;
  }

  lemma {:induction false} Inside(s: seq<Byte>, at: nat, length: nat, i: nat, j: nat)
    requires at + length <= |s| && i <= j <= length
    ensures s[at..at + length][i..j] == s[at + i..at + j]
  {
    var part, there := s[at..at + length][i..j], s[at + i..at + j];
    forall k | 0 <= k < j - i ensures part[k] == there[k] {
      assert part[k] == s[at..at + length][i + k] == s[at + i + k];
    }
  }

  lemma NothingOver(s: seq<Byte>, at: nat)
    requires at <= |s|
    ensures Over(s, at, []) == s
  {
  }

  lemma WholeBehind(text: Text, wrap: nat)
    requires wrap > 0
    ensures Edge(|text|, wrap, 0) == 0 && Behind(text, wrap, 0) == Ended(WrapLines(text, wrap))
  {
    hide LineCount;
    EdgeEnds(|text|, wrap);
    assert text[0..] == text;
  }

  // ----- Writing a block -----

  method CheckLabel(name: Text) returns (allowed: bool)
    ensures allowed <==> LabelAllowed(name)
  {
    if name != [] && (Separator(name[0]) || Separator(name[|name| - 1])) {
      return false;
    }
    var previousSeparator := false;
    for i := 0 to |name|
      invariant previousSeparator == (i > 0 && Separator(name[i - 1]))
      invariant forall k :: 0 <= k < i ==> 0x20 <= name[k] <= 0x7E
      invariant forall k, j :: 0 <= k < j < i && j == k + 1 ==> !Separator(name[k]) || !Separator(name[j])
    {
      var c := name[i];
      var separator := Separator(c);
      if separator && previousSeparator {
        return false;
      }
      if !separator && !(0x21 <= c <= 0x2C || 0x2E <= c <= 0x7E) {
        return false;
      }
      previousSeparator := separator;
    }
    return true;
  }

  method Write(out: array<Byte>, at: nat, what: Text) returns (end: nat)
    requires at + |what| <= out.Length
    modifies out
    ensures end == at + |what| && out[..] == Over(old(out[..]), at, what)
  {
    forall k | at <= k < at + |what| {
      out[k] := what[k - at];
    }
    end := at + |what|;
  }

  method WriteFrame(out: array<Byte>, from: nat, opening: Text, name: Text) returns (end: nat)
    requires from + |opening| + |name| + |DASHES| + 1 <= out.Length
    modifies out
    ensures end == from + |opening + name + DASHES + [LF]|
    ensures out[..] == Over(old(out[..]), from, opening + name + DASHES + [LF])
  {
    hide Over;
    ghost var was := out[..];
    var at := Write(out, from, opening);
    at := Write(out, at, name);
    OverAgain(was, from, opening, name);
    at := Write(out, at, DASHES);
    OverAgain(was, from, opening + name, DASHES);
    end := Write(out, at, [LF]);
    OverAgain(was, from, opening + name + DASHES, [LF]);
  }

  method EncodeWrapped(name: Text, bytes: seq<Byte>, wrap: nat, out: array<Byte>) returns (r: Result<nat, Error>)
    requires wrap > 0
    modifies out
    ensures !LabelAllowed(name) ==> r == Err(Label)
    ensures LabelAllowed(name) && bytes == [] ==> r == Err(EmptyPayload)
    ensures LabelAllowed(name) && bytes != [] && out.Length < BlockLength(|name|, |bytes|, wrap) ==>
              r == Err(BufferTooSmall)
    ensures r.Err? ==> out[..] == old(out[..])
    ensures LabelAllowed(name) && bytes != [] && BlockLength(|name|, |bytes|, wrap) <= out.Length ==>
              && r == Ok(BlockLength(|name|, |bytes|, wrap))
              && |BlockText(Block(name, bytes), wrap)| == BlockLength(|name|, |bytes|, wrap)
              && out[..] == Over(old(out[..]), 0, BlockText(Block(name, bytes), wrap))
  {
    hide LabelAllowed, Over, WrapLines, Encoded, Ended, LineCount, EncodedLength;
    var allowed := CheckLabel(name);
    if !allowed {
      return Err(Label);
    }
    if bytes == [] {
      return Err(EmptyPayload);
    }
    if out.Length < BlockLength(|name|, |bytes|, wrap) {
      return Err(BufferTooSmall);
    }
    ghost var was, head, tail := out[..], BeginLine(name) + [LF], EndLine(name) + [LF];
    var at := WriteFrame(out, 0, BEGIN, name);
    var body := Encode(bytes, out, at);
    ghost var text := Encoded(bytes);
    ghost var wrapped := Ended(WrapLines(text, wrap));
    BodyStands(was, head, text);
    ghost var encoded := out[..];
    var end := Split(out, at, body.value, wrap);
    BodySplits(was, head, text, wrapped, encoded);
    end := WriteFrame(out, end, END, name);
    OverAgain(was, 0, head + wrapped, tail);
    BlockInPieces(Block(name, bytes), wrap);
    BlockTakes(Block(name, bytes), wrap);
    return Ok(end);
  }

  lemma {:induction false} BodyStands(was: seq<Byte>, head: Text, text: Text)
    requires |head| + |text| <= |was|
    ensures var encoded := Over(Over(was, 0, head), |head|, text);
            encoded[|head|..|head| + |text|] == text
  {
  }

  lemma {:induction false} BodySplits(was: seq<Byte>, head: Text, text: Text, wrapped: Text, encoded: seq<Byte>)
    requires |text| <= |wrapped| && |head| + |wrapped| <= |was|
    requires encoded == Over(Over(was, 0, head), |head|, text)
    ensures Over(encoded, |head|, wrapped) == Over(was, 0, head + wrapped)
  {
  }
}
