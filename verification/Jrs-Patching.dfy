/** Jumps that are emitted before their targets are known, and aimed later. */
module Patching {

  import opened Source
  import opened StackBackend

  predicate IsJump(op: Op) {
    op.Jump? || op.Branch? || op.AbruptJump?
  }

  function Aimed(op: Op, target: nat): (r: Op) {
    match op
    case Jump(_) => Jump(target)
    case Branch(_, test) => Branch(target, test)
    case AbruptJump(_) => AbruptJump(target)
    case _ => op
  }

  // ----- The jumps of a statement that leave it for the loop around it -----

  function BreaksOf(s: Stmt, at: nat): (places: seq<nat>)
    decreases s
  {
    match s
    case Break => [at]
    case If(condition, yes, no) =>
      var start := at + 2 + ExprLen(condition) + 1;
      BreaksOf(yes, start) + (if no.Some? then BreaksOf(no.value, start + StmtLen(yes) + 1) else [])
    case Block(body) => ListBreaks(body, at)
    case _ => []
  }

  function ListBreaks(body: seq<Stmt>, at: nat): (places: seq<nat>)
    decreases body
  {
    if body == [] then [] else BreaksOf(body[0], at) + ListBreaks(body[1..], at + StmtLen(body[0]))
  }

  function ContinuesOf(s: Stmt, at: nat): (places: seq<nat>)
    decreases s
  {
    match s
    case Continue => [at]
    case If(condition, yes, no) =>
      var start := at + 2 + ExprLen(condition) + 1;
      ContinuesOf(yes, start) + (if no.Some? then ContinuesOf(no.value, start + StmtLen(yes) + 1) else [])
    case Block(body) => ListContinues(body, at)
    case _ => []
  }

  function ListContinues(body: seq<Stmt>, at: nat): (places: seq<nat>)
    decreases body
  {
    if body == [] then [] else ContinuesOf(body[0], at) + ListContinues(body[1..], at + StmtLen(body[0]))
  }

  // ----- Code that differs in where its jumps out lead -----

  ghost predicate Within(places: seq<nat>, at: nat, end: nat) {
    forall p :: p in places ==> at <= p < end
  }

  /** `b` is `a`, which starts at `at`, with the jumps at some places led elsewhere. */
  ghost predicate Led(a: seq<Op>, b: seq<Op>, at: nat, breaks: seq<nat>, continues: seq<nat>, brk: nat, cont: nat) {
    && |a| == |b|
    && Within(breaks, at, at + |a|) && Within(continues, at, at + |a|)
    && (forall p :: p in breaks ==> p !in continues)
    && (forall i :: 0 <= i < |a| ==>
          && (at + i in breaks ==> a[i].AbruptJump? && b[i] == AbruptJump(brk))
          && (at + i in continues ==> a[i].AbruptJump? && b[i] == AbruptJump(cont))
          && (at + i !in breaks && at + i !in continues ==> b[i] == a[i]))
  }

  lemma LedSame(a: seq<Op>, at: nat, brk: nat, cont: nat)
    ensures Led(a, a, at, [], [], brk, cont)
  {
  }

  lemma {:induction false} LedAppend(a: seq<Op>, b: seq<Op>, c: seq<Op>, d: seq<Op>, at: nat, breaks: seq<nat>,
      continues: seq<nat>, more: seq<nat>, others: seq<nat>, brk: nat, cont: nat)
    requires Led(a, b, at, breaks, continues, brk, cont)
    requires Led(c, d, at + |a|, more, others, brk, cont)
    ensures Led(a + c, b + d, at, breaks + more, continues + others, brk, cont)
  {
    var x, y := a + c, b + d;
    forall i | 0 <= i < |x|
      ensures at + i in breaks + more ==> x[i].AbruptJump? && y[i] == AbruptJump(brk)
      ensures at + i in continues + others ==> x[i].AbruptJump? && y[i] == AbruptJump(cont)
      ensures at + i !in breaks + more && at + i !in continues + others ==> y[i] == x[i]
    {
      if i < |a| {
        assert x[i] == a[i] && y[i] == b[i];
        assert at + i !in more && at + i !in others;
      } else {
        assert x[i] == c[i - |a|] && y[i] == d[i - |a|];
        assert at + i == at + |a| + (i - |a|);
        assert at + i !in breaks && at + i !in continues;
      }
    }
  }

  lemma {:induction false} LedBehind(front: seq<Op>, a: seq<Op>, b: seq<Op>, at: nat, breaks: seq<nat>,
      continues: seq<nat>, brk: nat, cont: nat)
    requires Led(a, b, at + |front|, breaks, continues, brk, cont)
    ensures Led(front + a, front + b, at, breaks, continues, brk, cont)
  {
    hide Led;
    LedSame(front, at, brk, cont);
    LedAppend(front, front, a, b, at, [], [], breaks, continues, brk, cont);
    assert [] + breaks == breaks && [] + continues == continues;
  }

  /** Where a statement's jumps out lead is all that its code does not settle by itself. */
  lemma {:induction false} StmtLed(s: Stmt, at: nat, scope: Scope, b0: nat, c0: nat, brk: nat, cont: nat)
    requires StmtBound(s, scope.Keys)
    ensures Led(StmtCode(s, at, scope, b0, c0), StmtCode(s, at, scope, brk, cont), at, BreaksOf(s, at),
        ContinuesOf(s, at), brk, cont)
    decreases s, 1
  {
    match s
    case If(_, _, _) => IfLed(s, at, scope, b0, c0, brk, cont);
    case Block(body) => ListLed(body, at, scope, b0, c0, brk, cont);
    case Break =>
    case Continue =>
    case _ => LedSame(StmtCode(s, at, scope, b0, c0), at, brk, cont);
  }

  lemma {:induction false} ListLed(body: seq<Stmt>, at: nat, scope: Scope, b0: nat, c0: nat, brk: nat, cont: nat)
    requires ListBound(body, scope.Keys)
    ensures Led(ListCode(body, at, scope, b0, c0), ListCode(body, at, scope, brk, cont), at, ListBreaks(body, at),
                ListContinues(body, at), brk, cont)
    decreases body, 0
  {
    hide Led, StmtCode, BreaksOf, ContinuesOf;
    if body == [] {
      LedSame([], at, brk, cont);
    } else {
      var next := at + StmtLen(body[0]);
      StmtLed(body[0], at, scope, b0, c0, brk, cont);
      ListLed(body[1..], next, scope, b0, c0, brk, cont);
      LedAppend(StmtCode(body[0], at, scope, b0, c0), StmtCode(body[0], at, scope, brk, cont),
        ListCode(body[1..], next, scope, b0, c0), ListCode(body[1..], next, scope, brk, cont),
        at, BreaksOf(body[0], at), ContinuesOf(body[0], at), ListBreaks(body[1..], next), ListContinues(body[1..],
            next),
        brk, cont);
    }
  }

  lemma {:induction false} IfLed(s: Stmt, at: nat, scope: Scope, b0: nat, c0: nat, brk: nat, cont: nat)
    requires StmtBound(s, scope.Keys) && s.If?
    ensures Led(StmtCode(s, at, scope, b0, c0), StmtCode(s, at, scope, brk, cont), at, BreaksOf(s, at),
        ContinuesOf(s, at), brk, cont)
    decreases s, 0
  {
    hide Led, ExprCode;
    var test := ExprCode(s.condition, at + 2, scope);
    var start := at + 2 + |test| + 1;
    var other := start + StmtLen(s.yes) + 1;
    var y0, y1 := StmtCode(s.yes, start, scope, b0, c0), StmtCode(s.yes, start, scope, brk, cont);
    StmtLed(s.yes, start, scope, b0, c0, brk, cont);
    var n0, n1 := [], [];
    var breaks, continues := [], [];
    if s.no.Some? {
      n0, n1 := StmtCode(s.no.value, other, scope, b0, c0), StmtCode(s.no.value, other, scope, brk, cont);
      breaks, continues := BreaksOf(s.no.value, other), ContinuesOf(s.no.value, other);
      StmtLed(s.no.value, other, scope, b0, c0, brk, cont);
    } else {
      LedSame([], other, brk, cont);
    }
    ChoiceLed(at, test, y0, y1, n0, n1, BreaksOf(s.yes, start), ContinuesOf(s.yes, start), breaks, continues, brk,
        cont);
  }

  lemma {:induction false} ChoiceLed(at: nat, test: seq<Op>, y0: seq<Op>, y1: seq<Op>, n0: seq<Op>, n1: seq<Op>,
      breaks: seq<nat>, continues: seq<nat>, more: seq<nat>, others: seq<nat>, brk: nat, cont: nat)
    requires var start := at + 2 + |test| + 1;
             && Led(y0, y1, start, breaks, continues, brk, cont)
             && Led(n0, n1, start + |y0| + 1, more, others, brk, cont)
    ensures Led(FreshCode(ChoiceCode(at + 2, test, y0, n0)), FreshCode(ChoiceCode(at + 2, test, y1, n1)), at,
                breaks + more, continues + others, brk, cont)
  {
    hide Led;
    var start := at + 2 + |test| + 1;
    LedSizes(y0, y1, start, breaks, continues, brk, cont);
    LedSizes(n0, n1, start + |y0| + 1, more, others, brk, cont);
    var other := start + |y0| + 1;
    var branch, jump := [Branch(other, False)], [Jump(other + |n0|)];
    LedBehind(jump, n0, n1, start + |y0|, more, others, brk, cont);
    LedAppend(y0, y1, jump + n0, jump + n1, start, breaks, continues, more, others, brk, cont);
    var br, co := breaks + more, continues + others;
    LedBehind(branch, y0 + (jump + n0), y1 + (jump + n1), start - 1, br, co, brk, cont);
    LedBehind(test, branch + (y0 + (jump + n0)), branch + (y1 + (jump + n1)), at + 2, br, co, brk, cont);
    var c0, c1 := ChoiceCode(at + 2, test, y0, n0), ChoiceCode(at + 2, test, y1, n1);
    LedBehind([Result], c0, c1, at + 1, br, co, brk, cont);
    LedBehind([Constant(Undefined)], [Result] + c0, [Result] + c1, at, br, co, brk, cont);
  }

  lemma LedSizes(a: seq<Op>, b: seq<Op>, at: nat, breaks: seq<nat>, continues: seq<nat>, brk: nat, cont: nat)
    requires Led(a, b, at, breaks, continues, brk, cont)
    ensures |a| == |b|
  {
  }
}
