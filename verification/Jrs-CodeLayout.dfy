/** Code that stands in a longer code. */
module CodeLayout {

  ghost predicate CodeAt<T>(code: seq<T>, at: nat, part: seq<T>) {
    at + |part| <= |code| && code[at..at + |part|] == part
  }

  /** The operation at a place. */
  ghost predicate IsOp<T>(code: seq<T>, pc: nat, op: T) {
    pc < |code| && code[pc] == op
  }

  lemma Split<T>(code: seq<T>, at: nat, x: seq<T>, y: seq<T>)
    requires CodeAt(code, at, x + y)
    ensures CodeAt(code, at, x) && CodeAt(code, at + |x|, y)
  {
    var whole := code[at..at + |x + y|];
    assert whole[..|x|] == x && whole[|x|..] == y;
    assert code[at..at + |x|] == whole[..|x|];
    assert code[at + |x|..at + |x| + |y|] == whole[|x|..];
  }

  lemma FirstOp<T>(code: seq<T>, at: nat, op: T, rest: seq<T>)
    requires CodeAt(code, at, [op] + rest)
    ensures IsOp(code, at, op) && CodeAt(code, at + 1, rest)
  {
    Split(code, at, [op], rest);
    LastOp(code, at, op);
  }

  lemma LastOp<T>(code: seq<T>, at: nat, op: T)
    requires CodeAt(code, at, [op])
    ensures IsOp(code, at, op)
  {
    assert code[at..at + 1][0] == op;
  }

  // ----- Code put together from the front is code put together from the back -----

  lemma Regroup3<T>(a: seq<T>, b: seq<T>, c: seq<T>)
    ensures a + b + c == a + (b + c)
  {
  }

  lemma Regroup4<T>(a: seq<T>, b: seq<T>, c: seq<T>, d: seq<T>)
    ensures a + b + c + d == a + (b + (c + d))
  {
  }

  lemma Regroup5<T>(a: seq<T>, b: seq<T>, c: seq<T>, d: seq<T>, e: seq<T>)
    ensures a + b + c + d + e == a + (b + (c + (d + e)))
  {
    Regroup4(a + b, c, d, e);
    Regroup3(a, b, c + (d + e));
  }

  lemma Regroup6<T>(a: seq<T>, b: seq<T>, c: seq<T>, d: seq<T>, e: seq<T>, f: seq<T>)
    ensures a + b + c + d + e + f == a + (b + (c + (d + (e + f))))
  {
    Regroup4(a + b + c, d, e, f);
    Regroup4(a, b, c, d + (e + f));
  }
}
