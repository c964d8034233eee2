/** The stack compiler: it grows its code, emits jumps before it knows where they lead, and patches them. */
module StackCompiler {

  import opened Wrappers
  import opened Source
  import opened CodeLayout
  import opened StackBackend
  import opened Patching

  datatype Error = Limit | InvalidBytecode

  /** The jumps of a loop being compiled that still have to be patched. */
  datatype Loop = Loop(breaks: seq<nat>, continues: seq<nat>)

  /** The innermost loop with more jumps noted. */
  function Noted(loops: seq<Loop>, breaks: seq<nat>, continues: seq<nat>): (r: seq<Loop>)
    ensures |r| == |loops|
  {
    if loops == [] then []
    else
      var last := |loops| - 1;
      loops[..last] + [Loop(loops[last].breaks + breaks, loops[last].continues + continues)]
  }

  lemma NotedAgain(loops: seq<Loop>, b: seq<nat>, c: seq<nat>, more: seq<nat>, others: seq<nat>)
    ensures Noted(Noted(loops, b, c), more, others) == Noted(loops, b + more, c + others)
  {
    if loops != [] {
      var last := loops[|loops| - 1];
      assert last.breaks + b + more == last.breaks + (b + more);
      assert last.continues + c + others == last.continues + (c + others);
    }
  }

  lemma NotedNone(loops: seq<Loop>)
    ensures Noted(loops, [], []) == loops
  {
    if loops != [] {
      var last := loops[|loops| - 1];
      assert last.breaks + [] == last.breaks && last.continues + [] == last.continues;
    }
  }

  class Compiler {

    const scope: Scope
    const limit: nat
    var code: seq<Op>
    var loops: seq<Loop>

    ghost predicate Valid()
      reads this
    {
      |code| <= limit
    }

    /** The answer to a request for code up to a length. */
    function Fitting(length: nat): (r: Result<(), Error>) {
      if length <= limit then Ok(()) else Err(Limit)
    }

    constructor (names: Scope, instructions: nat)
      ensures Valid() && scope == names && limit == instructions && code == [] && loops == []
    {
      scope, limit, code, loops := names, instructions, [], [];
    }

    method Emit(op: Op) returns (r: Result<nat, Error>)
      requires Valid()
      modifies this`code
      ensures Valid()
      ensures |old(code)| < limit ==> r == Ok(|old(code)|) && code == old(code) + [op]
      ensures |old(code)| >= limit ==> r == Err(Limit) && code == old(code)
    {
      if |code| >= limit {
        return Err(Limit);
      }
      var at := |code|;
      code := code + [op];
      return Ok(at);
    }

    method Patch(at: nat, target: nat) returns (r: Result<(), Error>)
      modifies this`code
      ensures at < |old(code)| && IsJump(old(code)[at]) ==>
                r == Ok(()) && code == old(code)[at := Aimed(old(code)[at], target)]
      ensures at >= |old(code)| || !IsJump(old(code)[at]) ==> r == Err(InvalidBytecode) && code == old(code)
    {
      if at < |code| && IsJump(code[at]) {
        code := code[at := Aimed(code[at], target)];
        return Ok(());
      }
      return Err(InvalidBytecode);
    }

    method Expression(e: Expr) returns (r: Result<(), Error>)
      requires Valid() && ExprBound(e, scope.Keys)
      modifies this`code
      ensures Valid()
      ensures r == Fitting(|old(code)| + ExprLen(e))
      ensures r.Ok? ==> code == old(code) + ExprCode(e, |old(code)|, scope)
      decreases e, 2
    {
      match e
      case Literal(value) =>
        var _ :- Emit(Constant(value));
        return Ok(());
      case Name(name) =>
        var _ :- Emit(Load(scope[name]));
        return Ok(());
      case Assign(_, _, _) =>
        r := Assignment(e);
      case BinaryExpr(op, _, _) =>
        if IsLogical(op) {
          r := ShortCircuit(e);
        } else {
          r := Arithmetic(e);
        }
      case Conditional(_, _, _) =>
        r := Choice(e);
      case Sequence(left, right) =>
        r := Comma(e);
    }

    method Comma(e: Expr) returns (r: Result<(), Error>)
      requires Valid() && ExprBound(e, scope.Keys) && e.Sequence?
      modifies this`code
      ensures Valid()
      ensures r == Fitting(|old(code)| + ExprLen(e))
      ensures r.Ok? ==> code == old(code) + ExprCode(e, |old(code)|, scope)
      decreases e, 0
    {
      hide ExprCode;
      var _ :- Expression(e.left);
      var _ :- Emit(Pop);
      var _ :- Expression(e.right);
      CommaPieces(old(code), e, scope);
      return Ok(());
    }

    method Arithmetic(e: Expr) returns (r: Result<(), Error>)
      requires Valid() && ExprBound(e, scope.Keys) && e.BinaryExpr? && !IsLogical(e.op)
      modifies this`code
      ensures Valid()
      ensures r == Fitting(|old(code)| + ExprLen(e))
      ensures r.Ok? ==> code == old(code) + ExprCode(e, |old(code)|, scope)
      decreases e, 0
    {
      hide ExprCode;
      var _ :- Expression(e.left);
      var _ :- Expression(e.right);
      var _ :- Emit(Apply(e.op));
      ArithmeticPieces(old(code), e, scope);
      return Ok(());
    }

    method Assignment(e: Expr) returns (r: Result<(), Error>)
      requires Valid() && ExprBound(e, scope.Keys) && e.Assign?
      modifies this`code
      ensures Valid()
      ensures r == Fitting(|old(code)| + ExprLen(e))
      ensures r.Ok? ==> code == old(code) + ExprCode(e, |old(code)|, scope)
      decreases e, 0
    {
      hide ExprCode;
      if e.operator.Some? {
        var _ :- Emit(Load(scope[e.name]));
      }
      var _ :- Expression(e.right);
      if e.operator.Some? {
        var _ :- Emit(Apply(e.operator.value));
      }
      var _ :- Emit(Store(scope[e.name]));
      AssignmentPieces(old(code), e, scope);
      return Ok(());
    }

    /** Patches a jump that has been emitted, which does not fail. */
    method Aim(at: nat, target: nat, ghost before: seq<Op>, ghost op: Op, ghost behind: seq<Op>)
      requires at == |before| && IsJump(op) && code == before + [op] + behind
      modifies this`code
      ensures code == before + [Aimed(op, target)] + behind
    {
      var _ := Patch(at, target);
    }

    method ShortCircuit(e: Expr) returns (r: Result<(), Error>)
      requires Valid() && ExprBound(e, scope.Keys) && e.BinaryExpr? && IsLogical(e.op)
      modifies this`code
      ensures Valid()
      ensures r == Fitting(|old(code)| + ExprLen(e))
      ensures r.Ok? ==> code == old(code) + ExprCode(e, |old(code)|, scope)
      decreases e, 0
    {
      hide ExprCode;
      var _ :- Expression(e.left);
      var _ :- SkipRight(e.op, e.right);
      LogicalPieces(old(code), e, scope);
      return Ok(());
    }

    /** The right operand, behind a test that skips it and keeps the value of the left one. */
    method SkipRight(op: Binary, right: Expr) returns (r: Result<(), Error>)
      requires Valid() && ExprBound(right, scope.Keys)
      modifies this`code
      ensures Valid()
      ensures r == Fitting(|old(code)| + 3 + ExprLen(right))
      ensures r.Ok? ==>
                code == old(code) + [Dup] + [Branch(|code|, TestOf(op))]
                        + ([Pop] + ExprCode(right, |old(code)| + 3, scope))
      decreases right, 3
    {
      hide ExprCode, ExprLen;
      var _ :- Emit(Dup);
      ghost var before := code;
      var end :- Emit(Branch(0, TestOf(op)));
      var _ :- Emit(Pop);
      var _ :- Expression(right);
      ghost var rest := ExprCode(right, |before| + 2, scope);
      Regroup3(before + [Branch(0, TestOf(op))], [Pop], rest);
      Aim(end, |code|, before, Branch(0, TestOf(op)), [Pop] + rest);
      return Ok(());
    }

    /** The condition of a choice and the arm it takes when it holds, up to the jump over the other. */
    method FirstArm(e: Expr) returns (r: Result<nat, Error>)
      requires Valid() && ExprBound(e, scope.Keys) && e.Conditional?
      modifies this`code
      ensures Valid()
      ensures var before := old(code) + ExprCode(e.condition, |old(code)|, scope);
              var yes := ExprCode(e.yes, |before| + 1, scope);
              var other := |before| + |yes| + 2;
              && (other > limit ==> r == Err(Limit))
              && (other <= limit ==> r == Ok(other - 1) && code == before + [Branch(other, False)] + yes + [Jump(0)])
      decreases e, 0
    {
      hide ExprCode, ExprLen;
      var _ :- Expression(e.condition);
      ghost var before := code;
      var branch :- Emit(Branch(0, False));
      var _ :- Expression(e.yes);
      ghost var yes := ExprCode(e.yes, |before| + 1, scope);
      var end :- Emit(Jump(0));
      Regroup3(before + [Branch(0, False)], yes, [Jump(0)]);
      Aim(branch, |code|, before, Branch(0, False), yes + [Jump(0)]);
      Regroup3(before + [Branch(|code|, False)], yes, [Jump(0)]);
      return Ok(end);
    }

    method Choice(e: Expr) returns (r: Result<(), Error>)
      requires Valid() && ExprBound(e, scope.Keys) && e.Conditional?
      modifies this`code
      ensures Valid()
      ensures r == Fitting(|old(code)| + ExprLen(e))
      ensures r.Ok? ==> code == old(code) + ExprCode(e, |old(code)|, scope)
      decreases e, 1
    {
      hide ExprCode;
      var end :- FirstArm(e);
      ghost var middle := code[..end];
      var _ :- Expression(e.no);
      Aim(end, |code|, middle, Jump(0), ExprCode(e.no, |middle| + 1, scope));
      ChoicePieces(old(code), e, scope);
      return Ok(());
    }

    // ----- Statements -----

    /** There is room for the code of a statement, and a loop for the jumps that leave it. */
    ghost predicate Takes(length: nat, breaks: seq<nat>, continues: seq<nat>)
      reads this
    {
      |code| + length <= limit && (loops != [] || (breaks == [] && continues == []))
    }

    method Statement(s: Stmt) returns (r: Result<(), Error>)
      requires Valid() && StmtBound(s, scope.Keys)
      modifies this
      ensures Valid()
      ensures r.Err? && old(loops) != [] ==> r.error == Limit
      ensures var n := |old(code)|;
              && (r.Ok? <==> old(Takes(StmtLen(s), BreaksOf(s, |code|), ContinuesOf(s, |code|))))
              && (r.Ok? ==> code == old(code) + StmtCode(s, n, scope, 0, 0))
              && (r.Ok? ==> loops == Noted(old(loops), BreaksOf(s, n), ContinuesOf(s, n)))
      decreases s, 2
    {
      NotedNone(loops);
      match s
      case ExprStmt(e) =>
        var _ :- Expression(e);
        var _ :- Emit(Op.Result);
        Regroup3(old(code), ExprCode(e, |old(code)|, scope), [Op.Result]);
        return Ok(());
      case If(_, _, _) =>
        r := Selection(s);
      case Block(body) =>
        r := Statements(body);
      case While(_, _) =>
        r := LoopBody(s);
      case DoWhile(_, _) =>
        r := DoWhileBody(s);
      case Break =>
        r := LoopControl(true);
      case Continue =>
        r := LoopControl(false);
      case Empty =>
        assert code + [] == code;
        return Ok(());
    }

    /** A statement that completes with a value starts from none. */
    method Freshen() returns (r: Result<(), Error>)
      requires Valid()
      modifies this`code
      ensures Valid()
      ensures r == Fitting(|old(code)| + 2)
      ensures r.Ok? ==> code == Freshened(old(code))
    {
      var _ :- Emit(Constant(Undefined));
      var _ :- Emit(Op.Result);
      return Ok(());
    }

    /** The condition of an `if` and its first arm, up to the jump over the other. */
    method Antecedent(s: Stmt) returns (r: Result<nat, Error>)
      requires Valid() && StmtBound(s, scope.Keys) && s.If?
      modifies this
      ensures Valid()
      ensures r.Err? && old(loops) != [] ==> r.error == Limit
      ensures var before := Freshened(old(code)) + ExprCode(s.condition, |old(code)| + 2, scope);
              var start := |before| + 1;
              var other := start + StmtLen(s.yes) + 1;
              var stays := BreaksOf(s.yes, start) == [] && ContinuesOf(s.yes, start) == [];
              && (r.Ok? <==> other <= limit && (old(loops) != [] || stays))
              && (r.Ok? ==>
                    && r.value == other - 1
                    && code == before + [Branch(other, False)] + StmtCode(s.yes, start, scope, 0, 0) + [Jump(0)]
                    && loops == Noted(old(loops), BreaksOf(s.yes, start), ContinuesOf(s.yes, start)))
      decreases s, 0
    {
      hide ExprCode, ExprLen, StmtCode, StmtLen, BreaksOf, ContinuesOf, Noted, Freshened;
      var _ :- Freshen();
      var _ :- Expression(s.condition);
      r := GuardedArm(s.yes);
    }

    /** A test that skips an arm, the arm, and the jump over what follows. */
    method GuardedArm(yes: Stmt) returns (r: Result<nat, Error>)
      requires Valid() && StmtBound(yes, scope.Keys)
      modifies this
      ensures Valid()
      ensures r.Err? && old(loops) != [] ==> r.error == Limit
      ensures var start := |old(code)| + 1;
              var other := start + StmtLen(yes) + 1;
              var stays := BreaksOf(yes, start) == [] && ContinuesOf(yes, start) == [];
              && (r.Ok? <==> other <= limit && (old(loops) != [] || stays))
              && (r.Ok? ==>
                    && r.value == other - 1
                    && code == old(code) + [Branch(other, False)] + StmtCode(yes, start, scope, 0, 0) + [Jump(0)]
                    && loops == Noted(old(loops), BreaksOf(yes, start), ContinuesOf(yes, start)))
      decreases yes, 3
    {
      hide StmtCode, StmtLen, BreaksOf, ContinuesOf, Noted;
      ghost var before := code;
      var branch :- Emit(Branch(0, False));
      var _ :- Statement(yes);
      ghost var arm := StmtCode(yes, |before| + 1, scope, 0, 0);
      var end :- Emit(Jump(0));
      Regroup3(before + [Branch(0, False)], arm, [Jump(0)]);
      Aim(branch, |code|, before, Branch(0, False), arm + [Jump(0)]);
      Regroup3(before + [Branch(|code|, False)], arm, [Jump(0)]);
      return Ok(end);
    }

    /** The other arm, and where the jump over it goes. */
    method Alternative(no: Option<Stmt>, end: nat, ghost middle: seq<Op>) returns (r: Result<(), Error>)
      requires Valid() && (no.Some? ==> StmtBound(no.value, scope.Keys))
      requires end == |middle| && code == middle + [Jump(0)]
      modifies this
      ensures Valid()
      ensures r.Err? && old(loops) != [] ==> r.error == Limit
      ensures var n := end + 1;
              && (r.Ok? <==> old(Takes(|ElseCode(no, n, scope)|, ElseBreaks(no, n), ElseContinues(no, n))))
              && (r.Ok? ==> code == middle + [Jump(n + |ElseCode(no, n, scope)|)] + ElseCode(no, n, scope))
              && (r.Ok? ==> loops == Noted(old(loops), ElseBreaks(no, n), ElseContinues(no, n)))
      decreases no, 4
    {
      hide Noted, ElseCode, ElseBreaks, ElseContinues;
      var _ :- Otherwise(no);
      Aim(end, |code|, middle, Jump(0), ElseCode(no, end + 1, scope));
      return Ok(());
    }

    method Otherwise(no: Option<Stmt>) returns (r: Result<(), Error>)
      requires Valid() && (no.Some? ==> StmtBound(no.value, scope.Keys))
      modifies this
      ensures Valid()
      ensures r.Err? && old(loops) != [] ==> r.error == Limit
      ensures var n := |old(code)|;
              && (r.Ok? <==> old(Takes(|ElseCode(no, |code|, scope)|, ElseBreaks(no, |code|),
                  ElseContinues(no, |code|))))
              && (r.Ok? ==> code == old(code) + ElseCode(no, n, scope))
              && (r.Ok? ==> loops == Noted(old(loops), ElseBreaks(no, n), ElseContinues(no, n)))
      decreases no, 3
    {
      hide StmtCode, StmtLen, BreaksOf, ContinuesOf, Noted;
      if no.Some? {
        r := Statement(no.value);
      } else {
        NotedNone(loops);
        assert code + [] == code;
        r := Ok(());
      }
    }

    method Selection(s: Stmt) returns (r: Result<(), Error>)
      requires Valid() && StmtBound(s, scope.Keys) && s.If?
      modifies this
      ensures Valid()
      ensures r.Err? && old(loops) != [] ==> r.error == Limit
      ensures var n := |old(code)|;
              && (r.Ok? <==> old(Takes(StmtLen(s), BreaksOf(s, |code|), ContinuesOf(s, |code|))))
              && (r.Ok? ==> code == old(code) + StmtCode(s, n, scope, 0, 0))
              && (r.Ok? ==> loops == Noted(old(loops), BreaksOf(s, n), ContinuesOf(s, n)))
      decreases s, 1
    {
      hide ExprCode, ExprLen, StmtCode, StmtLen, BreaksOf, ContinuesOf, Noted, Freshened, ElseCode, ElseBreaks,
          ElseContinues;
      ghost var n := |code|;
      IfShape(s, n, scope);
      var end :- Antecedent(s);
      var _ :- Alternative(s.no, end, code[..end]);
      ghost var start := n + 2 + ExprLen(s.condition) + 1;
      NotedAgain(old(loops), BreaksOf(s.yes, start), ContinuesOf(s.yes, start), ElseBreaks(s.no, end + 1),
          ElseContinues(s.no, end + 1));
      IfLaid(old(code), s, scope);
      return Ok(());
    }

    /** Patches jumps out of a loop. */
    method AimEach(places: seq<nat>, target: nat)
      requires forall p :: p in places ==> p < |code| && code[p].AbruptJump?
      modifies this`code
      ensures Redirected(old(code), code, places, target)
    {
      for i := 0 to |places|
        invariant Redirected(old(code), code, places[..i], target)
      {
        assert places[i] in places;
        assert places[..i + 1] == places[..i] + [places[i]];
        var _ := Patch(places[i], target);
      }
      assert places[..|places|] == places;
    }

    /** Leaves a loop: the jumps noted in it now have targets. */
    method Close(done: nat, next: nat, ghost front: seq<Op>, ghost s: Stmt, ghost tail: seq<Op>, ghost outer: seq<Loop>)
      requires StmtBound(s, scope.Keys)
      requires code == front + (StmtCode(s, |front|, scope, 0, 0) + tail)
      requires loops == outer + [Loop(BreaksOf(s, |front|), ContinuesOf(s, |front|))]
      modifies this
      ensures code == front + (StmtCode(s, |front|, scope, done, next) + tail)
      ensures loops == outer
    {
      hide StmtCode, BreaksOf, ContinuesOf, Led, Redirected;
      var state := loops[|loops| - 1];
      loops := loops[..|loops| - 1];
      ghost var a, b := StmtCode(s, |front|, scope, 0, 0), StmtCode(s, |front|, scope, done, next);
      StmtLed(s, |front|, scope, 0, 0, done, next);
      ghost var first := code;
      LedJumps(front, a, b, tail, state.breaks, state.continues, done, next);
      AimEach(state.breaks, done);
      ghost var second := code;
      JumpsStay(first, second, state.breaks, state.continues, done);
      AimEach(state.continues, next);
      LedPatched(front, a, b, tail, state.breaks, state.continues, done, next, second, code);
    }

    method LoopBody(s: Stmt) returns (r: Result<(), Error>)
      requires Valid() && StmtBound(s, scope.Keys) && s.While?
      modifies this
      ensures Valid()
      ensures r == Fitting(|old(code)| + StmtLen(s))
      ensures r.Ok? ==> code == old(code) + StmtCode(s, |old(code)|, scope, 0, 0)
      ensures r.Ok? ==> loops == old(loops)
      decreases s, 0
    {
      hide ExprCode, ExprLen, StmtCode, Freshened;
      var _ :- Freshen();
      var head := |code|;
      var _ :- Expression(s.condition);
      var _ :- Rounds(s.body, head);
      WhileLaid(old(code), s, scope);
      return Ok(());
    }

    /** A test that ends a loop, the body, and the jump back; the jumps out of the body have their targets. */
    method Rounds(body: Stmt, head: nat) returns (r: Result<(), Error>)
      requires Valid() && StmtBound(body, scope.Keys)
      modifies this
      ensures Valid()
      ensures r == Fitting(|old(code)| + StmtLen(body) + 2)
      ensures var next := |old(code)| + 1 + StmtLen(body);
              r.Ok? ==>
                && code == old(code) + [Branch(next + 1, False)]
                           + (StmtCode(body, |old(code)| + 1, scope, next + 1, next) + [Jump(head)])
                && loops == old(loops)
      decreases body, 3
    {
      hide StmtCode, BreaksOf, ContinuesOf, Noted;
      ghost var before := code;
      var end :- Emit(Branch(0, False));
      loops := loops + [Loop([], [])];
      var _ :- Statement(body);
      NotedPushed(old(loops), BreaksOf(body, |before| + 1), ContinuesOf(body, |before| + 1));
      ghost var inner := StmtCode(body, |before| + 1, scope, 0, 0);
      var next := |code|;
      var _ :- Emit(Jump(head));
      var done := |code|;
      Regroup3(before + [Branch(0, False)], inner, [Jump(head)]);
      Aim(end, done, before, Branch(0, False), inner + [Jump(head)]);
      Close(done, next, before + [Branch(done, False)], body, [Jump(head)], old(loops));
      return Ok(());
    }

    method DoWhileBody(s: Stmt) returns (r: Result<(), Error>)
      requires Valid() && StmtBound(s, scope.Keys) && s.DoWhile?
      modifies this
      ensures Valid()
      ensures r == Fitting(|old(code)| + StmtLen(s))
      ensures r.Ok? ==> code == old(code) + StmtCode(s, |old(code)|, scope, 0, 0)
      ensures r.Ok? ==> loops == old(loops)
      decreases s, 0
    {
      hide ExprCode, ExprLen, StmtCode, BreaksOf, ContinuesOf, Noted, Freshened;
      var _ :- Freshen();
      var head := |code|;
      ghost var before := code;
      loops := loops + [Loop([], [])];
      var _ :- Statement(s.body);
      NotedPushed(old(loops), BreaksOf(s.body, head), ContinuesOf(s.body, head));
      ghost var inner := StmtCode(s.body, head, scope, 0, 0);
      var next := |code|;
      var _ :- Expression(s.condition);
      var _ :- Emit(Branch(head, True));
      var done := |code|;
      ghost var test := ExprCode(s.condition, next, scope);
      Regroup4(before, inner, test, [Branch(head, True)]);
      Close(done, next, before, s.body, test + [Branch(head, True)], old(loops));
      DoWhileLaid(old(code), s, scope);
      return Ok(());
    }

    method LoopControl(isBreak: bool) returns (r: Result<(), Error>)
      requires Valid()
      modifies this
      ensures Valid()
      ensures r.Err? && old(loops) != [] ==> r.error == Limit
      ensures r.Ok? <==> |old(code)| < limit && old(loops) != []
      ensures r.Ok? ==> code == old(code) + [AbruptJump(0)]
      ensures r.Ok? ==> loops == if isBreak then Noted(old(loops), [|old(code)|], []) else Noted(old(loops), [],
          [|old(code)|])
    {
      var at :- Emit(AbruptJump(0));
      if loops == [] {
        return Err(InvalidBytecode);
      }
      var last := |loops| - 1;
      var l := loops[last];
      loops := loops[..last] + [if isBreak then Loop(l.breaks + [at], l.continues)
          else Loop(l.breaks, l.continues + [at])];
      assert l.breaks + [] == l.breaks && l.continues + [] == l.continues;
      return Ok(());
    }

    method Statements(body: seq<Stmt>) returns (r: Result<(), Error>)
      requires Valid() && ListBound(body, scope.Keys)
      modifies this
      ensures Valid()
      ensures r.Err? && old(loops) != [] ==> r.error == Limit
      ensures var n := |old(code)|;
              && (r.Ok? <==> old(Takes(ListLen(body), ListBreaks(body, |code|), ListContinues(body, |code|))))
              && (r.Ok? ==> code == old(code) + ListCode(body, n, scope, 0, 0))
              && (r.Ok? ==> loops == Noted(old(loops), ListBreaks(body, n), ListContinues(body, n)))
      decreases body, 1
    {
      hide StmtCode, BreaksOf, ContinuesOf, Noted, StmtLen, ListCode, ListBreaks, ListContinues, ListLen, ListBound;
      ghost var n := |code|;
      ghost var breaks: seq<nat>, continues: seq<nat> := [], [];
      ListStarts(body, loops, n);
      for i := 0 to |body|
        invariant Valid() && ListBound(body[i..], scope.Keys)
        invariant n + ListLen(body) == |code| + ListLen(body[i..])
        invariant old(code) + ListCode(body, n, scope, 0, 0) == code + ListCode(body[i..], |code|, scope, 0, 0)
        invariant ListBreaks(body, n) == breaks + ListBreaks(body[i..], |code|)
        invariant ListContinues(body, n) == continues + ListContinues(body[i..], |code|)
        invariant loops == Noted(old(loops), breaks, continues)
        invariant old(loops) == [] ==> breaks == [] && continues == []
      {
        var s := body[i];
        ghost var at, before := |code|, code;
        ListFirst(body, i, at, scope);
        NothingLost(breaks, BreaksOf(s, at), ListBreaks(body[i + 1..], at + StmtLen(s)));
        NothingLost(continues, ContinuesOf(s, at), ListContinues(body[i + 1..], at + StmtLen(s)));
        var _ :- Statement(s);
        Regroup3(before, StmtCode(s, at, scope, 0, 0), ListCode(body[i + 1..], |code|, scope, 0, 0));
        NotedAgain(old(loops), breaks, continues, BreaksOf(s, at), ContinuesOf(s, at));
        breaks, continues := breaks + BreaksOf(s, at), continues + ContinuesOf(s, at);
      }
      ListEnds(body, |code|, scope);
      assert code + [] == code && breaks + [] == breaks && continues + [] == continues;
      return Ok(());
    }
  }

  // ----- The pieces a statement is emitted in -----

  function Freshened(code: seq<Op>): (r: seq<Op>)
    ensures |r| == |code| + 2
  {
    code + [Constant(Undefined)] + [Op.Result]
  }

  lemma {:induction false} FreshLaid(code: seq<Op>, rest: seq<Op>)
    ensures Freshened(code) + rest == code + FreshCode(rest)
  {
    Regroup4(code, [Constant(Undefined)], [Op.Result], rest);
  }

  function ElseCode(no: Option<Stmt>, at: nat, scope: Scope): (code: seq<Op>)
    requires no.Some? ==> StmtBound(no.value, scope.Keys)
  {
    if no.Some? then StmtCode(no.value, at, scope, 0, 0) else []
  }

  function ElseBreaks(no: Option<Stmt>, at: nat): (places: seq<nat>) {
    if no.Some? then BreaksOf(no.value, at) else []
  }

  function ElseContinues(no: Option<Stmt>, at: nat): (places: seq<nat>) {
    if no.Some? then ContinuesOf(no.value, at) else []
  }

  lemma {:induction false} IfShape(s: Stmt, at: nat, scope: Scope)
    requires StmtBound(s, scope.Keys) && s.If?
    ensures var test := ExprCode(s.condition, at + 2, scope);
            var start := at + 2 + ExprLen(s.condition) + 1;
            var other := start + StmtLen(s.yes) + 1;
            var no := ElseCode(s.no, other, scope);
            && StmtCode(s, at, scope, 0, 0) == FreshCode(ChoiceCode(at + 2, test, StmtCode(s.yes, start, scope, 0, 0),
                no))
            && StmtLen(s) == other - at + |no|
            && BreaksOf(s, at) == BreaksOf(s.yes, start) + ElseBreaks(s.no, other)
            && ContinuesOf(s, at) == ContinuesOf(s.yes, start) + ElseContinues(s.no, other)
  {
    hide ExprCode, ExprLen, FreshCode, ChoiceCode;
  }

  lemma {:induction false} IfLaid(code: seq<Op>, s: Stmt, scope: Scope)
    requires StmtBound(s, scope.Keys) && s.If?
    ensures var before := Freshened(code) + ExprCode(s.condition, |code| + 2, scope);
            var yes := StmtCode(s.yes, |before| + 1, scope, 0, 0);
            var other := |before| + 1 + |yes| + 1;
            var no := ElseCode(s.no, other, scope);
            before + [Branch(other, False)] + yes + [Jump(other + |no|)] + no == code + StmtCode(s, |code|, scope, 0, 0)
  {
    hide ExprCode, ExprLen, StmtCode, StmtLen, ElseCode, ElseBreaks, ElseContinues, ChoiceCode, FreshCode, Freshened,
        BreaksOf, ContinuesOf;
    IfShape(s, |code|, scope);
    var test := ExprCode(s.condition, |code| + 2, scope);
    var start := |code| + 2 + |test| + 1;
    var yes := StmtCode(s.yes, start, scope, 0, 0);
    var no := ElseCode(s.no, start + |yes| + 1, scope);
    ChoiceLaid(Freshened(code), |code| + 2, test, yes, no);
    FreshLaid(code, ChoiceCode(|code| + 2, test, yes, no));
  }

  /** Code with the jumps at some places led to a target. */
  ghost predicate Redirected(a: seq<Op>, b: seq<Op>, places: seq<nat>, target: nat) {
    && |a| == |b|
    && forall i :: 0 <= i < |a| ==> b[i] == if i in places then AbruptJump(target) else a[i]
  }

  lemma NotedPushed(loops: seq<Loop>, breaks: seq<nat>, continues: seq<nat>)
    ensures Noted(loops + [Loop([], [])], breaks, continues) == loops + [Loop(breaks, continues)]
  {
    assert (loops + [Loop([], [])])[..|loops|] == loops;
    assert [] + breaks == breaks && [] + continues == continues;
  }

  /** The places noted hold jumps. */
  lemma {:induction false} LedJumps(front: seq<Op>, a: seq<Op>, b: seq<Op>, tail: seq<Op>, breaks: seq<nat>,
      continues: seq<nat>, brk: nat, cont: nat)
    requires Led(a, b, |front|, breaks, continues, brk, cont)
    ensures var code := front + (a + tail);
            && (forall p :: p in breaks ==> p < |code| && code[p].AbruptJump?)
            && (forall p :: p in continues ==> p < |code| && code[p].AbruptJump?)
  {
    var code := front + (a + tail);
    forall p | p in breaks || p in continues ensures p < |code| && code[p].AbruptJump? {
      var i := p - |front|;
      assert p == |front| + i && a[i].AbruptJump?;
    }
  }

  lemma {:induction false} JumpsStay(a: seq<Op>, b: seq<Op>, breaks: seq<nat>, continues: seq<nat>, target: nat)
    requires Redirected(a, b, breaks, target)
    requires forall p :: p in continues ==> p < |a| && a[p].AbruptJump?
    ensures forall p :: p in continues ==> p < |b| && b[p].AbruptJump?
  {
  }

  /** Patching the jumps a statement leaves open gives the code it has with their targets known. */
  lemma {:induction false} LedPatched(front: seq<Op>, a: seq<Op>, b: seq<Op>, tail: seq<Op>, breaks: seq<nat>,
      continues: seq<nat>, brk: nat, cont: nat, second: seq<Op>, third: seq<Op>)
    requires Led(a, b, |front|, breaks, continues, brk, cont)
    requires Redirected(front + (a + tail), second, breaks, brk) && Redirected(second, third, continues, cont)
    ensures third == front + (b + tail)
  {
    var first, last := front + (a + tail), front + (b + tail);
    forall i | 0 <= i < |first| ensures third[i] == last[i] {
      var k := i - |front|;
      if 0 <= k < |a| {
        assert first[i] == a[k] && last[i] == b[k];
        assert i == |front| + k;
      } else {
        assert i !in breaks && i !in continues;
        assert first[i] == last[i];
      }
    }
  }

  lemma {:induction false} WhileLaid(code: seq<Op>, s: Stmt, scope: Scope)
    requires StmtBound(s, scope.Keys) && s.While?
    ensures var head := |code| + 2;
            var before := Freshened(code) + ExprCode(s.condition, head, scope);
            var next := |before| + 1 + StmtLen(s.body);
            before + [Branch(next + 1, False)] + (StmtCode(s.body, |before| + 1, scope, next + 1, next) + [Jump(head)])
            == code + StmtCode(s, |code|, scope, 0, 0)
  {
    hide ExprCode, ExprLen, FreshCode, Freshened, WhileCode;
    var head := |code| + 2;
    var test := ExprCode(s.condition, head, scope);
    var start := head + |test| + 1;
    var next := start + StmtLen(s.body);
    var body := StmtCode(s.body, start, scope, next + 1, next);
    assert StmtCode(s, |code|, scope, 0, 0) == FreshCode(WhileCode(head, test, body));
    hide StmtCode;
    LoopLaid(Freshened(code), head, test, body);
    FreshLaid(code, WhileCode(head, test, body));
  }

  lemma {:induction false} LoopLaid(code: seq<Op>, head: nat, test: seq<Op>, body: seq<Op>)
    ensures code + test + [Branch(head + |test| + 1 + |body| + 1, False)] + (body + [Jump(head)])
            == code + WhileCode(head, test, body)
  {
    Regroup4(code, test, [Branch(head + |test| + 1 + |body| + 1, False)], body + [Jump(head)]);
  }

  lemma {:induction false} DoWhileLaid(code: seq<Op>, s: Stmt, scope: Scope)
    requires StmtBound(s, scope.Keys) && s.DoWhile?
    ensures var head := |code| + 2;
            var next := head + StmtLen(s.body);
            var test := ExprCode(s.condition, next, scope);
            Freshened(code) + (StmtCode(s.body, head, scope, next + |test| + 1, next) + (test + [Branch(head, True)]))
            == code + StmtCode(s, |code|, scope, 0, 0)
  {
    hide ExprCode, ExprLen, FreshCode, Freshened;
    var head := |code| + 2;
    var next := head + StmtLen(s.body);
    var test := ExprCode(s.condition, next, scope);
    FreshLaid(code, DoWhileCode(head, StmtCode(s.body, head, scope, next + |test| + 1, next), test));
  }

  // ----- The pieces a list of statements is emitted in -----

  lemma ListStarts(body: seq<Stmt>, loops: seq<Loop>, n: nat)
    ensures body[0..] == body && Noted(loops, [], []) == loops
    ensures [] + ListBreaks(body, n) == ListBreaks(body, n) && [] + ListContinues(body, n) == ListContinues(body, n)
  {
    NotedNone(loops);
  }

  lemma {:induction false} ListFirst(body: seq<Stmt>, i: nat, at: nat, scope: Scope)
    requires i < |body| && ListBound(body[i..], scope.Keys)
    ensures StmtBound(body[i], scope.Keys) && ListBound(body[i + 1..], scope.Keys)
    ensures var s, rest, next := body[i], body[i + 1..], at + StmtLen(body[i]);
            && ListLen(body[i..]) == StmtLen(s) + ListLen(rest)
            && ListCode(body[i..], at, scope, 0, 0) == StmtCode(s, at, scope, 0, 0) + ListCode(rest, next, scope, 0, 0)
            && ListBreaks(body[i..], at) == BreaksOf(s, at) + ListBreaks(rest, next)
            && ListContinues(body[i..], at) == ContinuesOf(s, at) + ListContinues(rest, next)
  {
    hide StmtCode, BreaksOf, ContinuesOf, StmtLen, StmtBound;
    assert body[i..][0] == body[i] && body[i..][1..] == body[i + 1..];
  }

  lemma ListEnds(body: seq<Stmt>, at: nat, scope: Scope)
    requires ListBound(body[|body|..], scope.Keys)
    ensures var rest := body[|body|..];
            && ListLen(rest) == 0 && ListCode(rest, at, scope, 0, 0) == []
            && ListBreaks(rest, at) == [] && ListContinues(rest, at) == []
  {
  }

  lemma {:induction false} NothingLost(a: seq<nat>, b: seq<nat>, c: seq<nat>)
    ensures a + (b + c) == a + b + c
    ensures b != [] ==> a + (b + c) != []
  {
  }

  // ----- The pieces an expression is emitted in -----

  lemma {:induction false} CommaPieces(code: seq<Op>, e: Expr, scope: Scope)
    requires ExprBound(e, scope.Keys) && e.Sequence?
    ensures var left := code + ExprCode(e.left, |code|, scope);
            left + [Pop] + ExprCode(e.right, |left| + 1, scope) == code + ExprCode(e, |code|, scope)
  {
    hide ExprCode;
    var left := ExprCode(e.left, |code|, scope);
    var right := ExprCode(e.right, |code| + |left| + 1, scope);
    ExprShape(e, |code|, scope);
    Regroup4(code, left, [Pop], right);
  }

  lemma {:induction false} ArithmeticPieces(code: seq<Op>, e: Expr, scope: Scope)
    requires ExprBound(e, scope.Keys) && e.BinaryExpr? && !IsLogical(e.op)
    ensures var left := code + ExprCode(e.left, |code|, scope);
            left + ExprCode(e.right, |left|, scope) + [Apply(e.op)] == code + ExprCode(e, |code|, scope)
  {
    hide ExprCode;
    var left := ExprCode(e.left, |code|, scope);
    var right := ExprCode(e.right, |code| + |left|, scope);
    ExprShape(e, |code|, scope);
    Regroup4(code, left, right, [Apply(e.op)]);
  }

  lemma {:induction false} AssignmentPieces(code: seq<Op>, e: Expr, scope: Scope)
    requires ExprBound(e, scope.Keys) && e.Assign?
    ensures var slot := scope[e.name];
            code + ExprCode(e, |code|, scope)
            == if e.operator.None? then code + ExprCode(e.right, |code|, scope) + [Store(slot)]
               else
                 code + [Load(slot)] + ExprCode(e.right, |code| + 1, scope) + [Apply(e.operator.value)] + [Store(slot)]
  {
    var slot := scope[e.name];
    if e.operator.Some? {
      Regroup5(code, [Load(slot)], ExprCode(e.right, |code| + 1, scope), [Apply(e.operator.value)], [Store(slot)]);
    }
  }

  lemma {:induction false} LogicalPieces(code: seq<Op>, e: Expr, scope: Scope)
    requires ExprBound(e, scope.Keys) && e.BinaryExpr? && IsLogical(e.op)
    ensures var before := code + ExprCode(e.left, |code|, scope) + [Dup];
            var right := ExprCode(e.right, |before| + 2, scope);
            before + [Branch(|before| + 2 + |right|, TestOf(e.op))] + ([Pop] + right)
                == code + ExprCode(e, |code|, scope)
  {
    hide ExprCode, LogicalCode;
    var left := ExprCode(e.left, |code|, scope);
    var right := ExprCode(e.right, |code| + |left| + 3, scope);
    ExprShape(e, |code|, scope);
    LogicalLaid(code, e.op, |code|, left, right);
  }

  lemma {:induction false} LogicalLaid(code: seq<Op>, op: Binary, at: nat, left: seq<Op>, right: seq<Op>)
    ensures code + left + [Dup] + [Branch(at + |left| + 3 + |right|, TestOf(op))] + ([Pop] + right)
            == code + LogicalCode(op, at, left, right)
  {
    var branch := [Branch(at + |left| + 3 + |right|, TestOf(op))];
    Regroup4(code + left, [Dup], branch, [Pop] + right);
    Regroup3(code, left, [Dup] + (branch + ([Pop] + right)));
  }

  lemma {:induction false} ChoicePieces(code: seq<Op>, e: Expr, scope: Scope)
    requires ExprBound(e, scope.Keys) && e.Conditional?
    ensures var before := code + ExprCode(e.condition, |code|, scope);
            var yes := ExprCode(e.yes, |before| + 1, scope);
            var other := |before| + |yes| + 2;
            var no := ExprCode(e.no, other, scope);
            before + [Branch(other, False)] + yes + [Jump(other + |no|)] + no == code + ExprCode(e, |code|, scope)
  {
    hide ExprCode, ChoiceCode;
    var test := ExprCode(e.condition, |code|, scope);
    var yes := ExprCode(e.yes, |code| + |test| + 1, scope);
    var no := ExprCode(e.no, |code| + |test| + 1 + |yes| + 1, scope);
    ExprShape(e, |code|, scope);
    ChoiceLaid(code, |code|, test, yes, no);
  }

  lemma {:induction false} ChoiceLaid(code: seq<Op>, at: nat, test: seq<Op>, yes: seq<Op>, no: seq<Op>)
    ensures var other := at + |test| + 1 + |yes| + 1;
            code + test + [Branch(other, False)] + yes + [Jump(other + |no|)] + no
                == code + ChoiceCode(at, test, yes, no)
  {
    var other := at + |test| + 1 + |yes| + 1;
    var branch, jump := [Branch(other, False)], [Jump(other + |no|)];
    Regroup5(code + test, branch, yes, jump, no);
    Regroup3(code, test, branch + (yes + (jump + no)));
  }
}
