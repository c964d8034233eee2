/** Where the backends part: a loop's head gives a type to a binding that is not initialized. */
module UninitializedBindings {
  import opened Wrappers
  import opened Source
  import opened Machines
  import opened CodeLayout
  import opened RegisterTypes
  import opened TypeInference
  import opened RegisterMachine
  import opened ExpressionLowering
  import opened RegisterExpressions
  import opened StatementLowering
  import opened ScriptLowering
  import opened RegisterScripts
  import opened BackendAgreement
  import StackBackend

  // ---------- a script and where it starts ----------

  /** A script as the two compilers emit it. */
  ghost function Emitted(program: seq<Stmt>, b: Bindings, base: nat, scope: StackBackend.Scope): (script: Script)
    requires ListBound(program, scope.Keys) && RegisterScript(program, b, base).Some?
  {
    Script(program, StackBackend.ListCode(program, 0, scope, 0, 0), scope, RegisterScript(program, b, base).value, b,
      base)
  }

  /** A binding as both machines have it: one with a type is initialized, with a value of that type;
      one without is not, and its register is as a new frame leaves it. */
  predicate HeldAs(x: Binding, slot: Option<Value>, register: Value) {
    if x.ty.Some? then slot == Some(register) && Inhabits(register, x.ty.value)
    else slot == None && register == Undefined
  }

  /** Both machines hold the bindings. */
  ghost predicate Held(b: Bindings, base: nat, scope: StackBackend.Scope, slots: seq<Option<Value>>, regs: seq<Value>) {
    && |regs| == REGISTERS && Placed(b, base) && scope.Keys == b.Keys && StackBackend.Distinct(scope)
    && forall x | x in b :: scope[x] < |slots| && HeldAs(b[x], slots[scope[x]], regs[b[x].register])
  }

  function StackStart(slots: seq<Option<Value>>): (s: StackBackend.State) {
    StackBackend.State(0, [], slots, Undefined)
  }

  function RegisterStart(acc: Value, regs: seq<Value>): (t: State) {
    State(0, acc, regs)
  }

  /** The backends agree on every script both take. */
  ghost predicate AllAgree(ops: Operators, b: Bindings, base: nat, scope: StackBackend.Scope,
      slots: seq<Option<Value>>, acc: Value, regs: seq<Value>) {
    forall program: seq<Stmt> | ListBound(program, scope.Keys) && RegisterScript(program, b, base).Some? ::
      Agree(ops, Emitted(program, b, base, scope), StackStart(slots), RegisterStart(acc, regs))
  }

  /** From any states that hold the bindings, the backends agree on every script both take exactly
      when every binding is initialized. */
  lemma AgreeExactly(ops: Operators, b: Bindings, base: nat, scope: StackBackend.Scope, slots: seq<Option<Value>>,
      acc: Value, regs: seq<Value>)
    requires Lawful(ops) && ops.truthy(Boolean(true)) && base + 3 <= LAST_REGISTER
    requires Held(b, base, scope, slots, regs)
    ensures AllAgree(ops, b, base, scope, slots, acc, regs) <==> forall x | x in b :: b[x].ty.Some?
  {
    hide Lawful, Held, RegisterScript, Agree, ListBound, Emitted;
    if x :| x in b && b[x].ty.None? {
      var program := [ReadingLoop(x)];
      BackendsPart(ops, x, b, base, scope, slots, acc, regs);
      assert !Agree(ops, Emitted(program, b, base, scope), StackStart(slots), RegisterStart(acc, regs));
    } else {
      forall program: seq<Stmt> | ListBound(program, scope.Keys) && RegisterScript(program, b, base).Some?
        ensures Agree(ops, Emitted(program, b, base, scope), StackStart(slots), RegisterStart(acc, regs))
      {
        InitializedAgree(ops, program, b, base, scope, slots, acc, regs);
      }
    }
  }

  /** With every binding initialized the states are those of one environment. */
  lemma InitializedAgree(ops: Operators, program: seq<Stmt>, b: Bindings, base: nat, scope: StackBackend.Scope,
      slots: seq<Option<Value>>, acc: Value, regs: seq<Value>)
    requires Lawful(ops) && Held(b, base, scope, slots, regs) && forall x | x in b :: b[x].ty.Some?
    requires ListBound(program, scope.Keys) && RegisterScript(program, b, base).Some?
    ensures Agree(ops, Emitted(program, b, base, scope), StackStart(slots), RegisterStart(acc, regs))
  {
    hide Lawful, LowerScript, RegisterScript, Agree, ListBound, StackBackend.ListCode, StackBackend.ListLen;
    var script := Emitted(program, b, base, scope);
    var env := RegisterEnv(b, base, regs);
    assert script.stack[0..|script.stack|] == script.stack;
    assert script.registers[0..|script.registers|] == script.registers;
    BackendsAgree(ops, script, env, StackStart(slots), RegisterStart(acc, regs));
  }

  /** The values in the registers of the bindings. */
  ghost function RegisterEnv(b: Bindings, base: nat, regs: seq<Value>): (env: Env)
    requires Placed(b, base) && |regs| == REGISTERS
    ensures env.Keys == b.Keys
  {
    map x | x in b :: regs[b[x].register]
  }

  // ---------- a script on which they part ----------

  /** The body of a loop that reads a binding, leaves, and after that assigns it. */
  function ReadingBody(x: string): (s: Stmt) {
    Block([ExprStmt(Name(x)), Break, ExprStmt(Assign(x, None, Literal(Number(0))))])
  }

  function ReadingLoop(x: string): (s: Stmt) {
    While(Literal(Boolean(true)), ReadingBody(x))
  }

  /** By itself the read is refused. */
  lemma ReadIsRefused(x: string, at: nat, b: Bindings, base: nat, loop: Option<Loop>, completion: Option<nat>,
      mode: Head)
    requires x in b && b[x].ty.None?
    ensures LowerStmt(ExprStmt(Name(x)), at, b, base, loop, completion, mode).None?
  {
  }

  /** The types at the head once the inference has followed the assignment. */
  function Guessed(b: Bindings, x: string): (r: Bindings)
    requires x in b
    ensures r.Keys == b.Keys
  {
    b[x := b[x].(ty := Some(TNumber))]
  }

  lemma HeadIsGuessed(x: string, b: Bindings)
    requires x in b && b[x].ty.None?
    ensures FixedPoint(ReadingBody(x), b, true) == Guessed(b, x)
  {
    hide Ranks;
    var h := Guessed(b, x);
    OnePass(x, b);
    OnePass(x, h);
    assert h[x].ty == Some(TNumber) && h != b;
    assert Observe(b, x, TNumber) == h;
    assert Observe(h, x, TNumber) == h;
    assert FixedPoint(ReadingBody(x), h, true) == h;
    assert FixedPoint(ReadingBody(x), b, true) == FixedPoint(ReadingBody(x), h, true);
  }

  lemma OnePass(x: string, b: Bindings)
    requires x in b
    ensures InferStmt(ReadingBody(x), b, true) == Observe(b, x, TNumber)
  {
    var e := Assign(x, None, Literal(Number(0)));
    var list := ReadingBody(x).statements;
    assert list[1..] == [Break, ExprStmt(e)];
    assert list[1..][1..] == [ExprStmt(e)];
    assert list[1..][1..][1..] == [];
    assert InferList([ExprStmt(e)], b, true) == InferExpr(e, b);
    assert InferList([Break, ExprStmt(e)], b, true) == InferExpr(e, b);
    assert InferStmt(ExprStmt(Name(x)), b, true) == b;
    assert InferList(list, b, true) == InferExpr(e, b);
    assert InferExpr(e, b) == Observe(b, x, TNumber);
  }

  /** In the loop it is accepted, and the code is that of a binding with a type. */
  lemma LoopIsAccepted(x: string, at: nat, b: Bindings, base: nat)
    requires x in b && base + 2 <= LAST_REGISTER
    ensures LowerStmt(ReadingLoop(x), at, b, base, None, None, Declared).Some?
    ensures LowerStmt(ReadingLoop(x), at, b, base, None, None, Declared).value.code
            == LoopCode(ReadingLoop(x), base, [Lda(Boolean(true))], ReadingCode(x, at, b[x].register, base))
    ensures LowerStmt(ReadingLoop(x), at, b, base, None, None, Declared).value.flow == FlowValue(TUndefined)
  {
    hide FixedPoint, LoopCode, ReadingCode;
    var s := ReadingLoop(x);
    DeclaredHead(x, b);
    if b[x].ty.Some? {
      LoopOnce(x, at, b, base, Declared);
    } else {
      BodyIsRefused(x, at, b, base);
      HeadIsGuessed(x, b);
      LoopOnce(x, at, b, base, Widened);
    }
  }

  lemma DeclaredHead(x: string, b: Bindings)
    ensures FixedPoint(ReadingBody(x), b, false) == b
  {
    hide Ranks;
    var list := ReadingBody(x).statements;
    assert list[1..][1..][1..] == [];
    assert InferList(list[1..][1..], b, false) == b;
    assert InferList(list[1..], b, false) == b;
    assert InferList(list, b, false) == b;
  }

  /** From the types the bindings have the loop is refused. */
  lemma BodyIsRefused(x: string, at: nat, b: Bindings, base: nat)
    requires x in b && b[x].ty.None? && FixedPoint(ReadingBody(x), b, false) == b
    ensures LowerLoopOnce(ReadingLoop(x), at, b, base, Declared).None?
  {
    hide FixedPoint, LoopCode;
    var s, list := ReadingLoop(x), ReadingBody(x).statements;
    var loop := LoopOf(s, at, base, b);
    ReadIsRefused(x, BodyAt(s, at) + 1, b, base + 2, Some(loop), Some(base + 1), Declared);
    assert LowerList(list, BodyAt(s, at) + 1, b, base + 2, Some(loop), base + 1, Declared).None?;
    assert LowerStmt(s.body, BodyAt(s, at), b, base + 1, Some(loop), None, Declared).None?;
  }

  /** The loop, lowered from a head where the binding has a type. */
  lemma LoopOnce(x: string, at: nat, b: Bindings, base: nat, mode: Head)
    requires x in b && base + 2 <= LAST_REGISTER
    requires var h := FixedPoint(ReadingBody(x), b, mode.Widened?);
      x in h && h[x].ty.Some? && h[x].register == b[x].register
    ensures LowerLoopOnce(ReadingLoop(x), at, b, base, mode).Some?
    ensures LowerLoopOnce(ReadingLoop(x), at, b, base, mode).value.code
            == LoopCode(ReadingLoop(x), base, [Lda(Boolean(true))], ReadingCode(x, at, b[x].register, base))
    ensures LowerLoopOnce(ReadingLoop(x), at, b, base, mode).value.flow == FlowValue(TUndefined)
  {
    hide FixedPoint, LoopCode, ReadingBlock;
    var s, h := ReadingLoop(x), FixedPoint(ReadingBody(x), b, mode.Widened?);
    var loop := LoopOf(s, at, base, h);
    BodyIsAccepted(x, BodyAt(s, at), h, base + 1, loop, mode);
    var c := LowerExpr(s.condition, h, base + 1);
    assert c == Some(Lowered([Lda(Boolean(true))], TBoolean, h));
  }

  /** The code of the body of a loop at `at`. */
  function ReadingCode(x: string, at: nat, register: nat, base: nat): (code: seq<Instr>) {
    var s := ReadingLoop(x);
    ReadingBlock(BodyAt(s, at), register, base + 1, base, LoopOf(s, at, base, map[]).brk)
  }

  function ReadingBlock(at: nat, register: nat, base: nat, result: nat, brk: nat): (code: seq<Instr>) {
    BlockCode(base, [Ldar(register)] + (KeepCode(base, false) + LeaveCode(at + 3, Some(base), result, brk)), true)
  }

  lemma BodyIsAccepted(x: string, at: nat, h: Bindings, base: nat, loop: Loop, mode: Head)
    requires x in h && h[x].ty.Some? && loop.head == h && base + 1 <= LAST_REGISTER
    ensures LowerStmt(ReadingBody(x), at, h, base, Some(loop), None, mode)
            == Some(LoweredStmt(ReadingBlock(at, h[x].register, base, loop.result, loop.brk), FlowAbrupt, h))
  {
    hide FixedPoint, LeaveCode, Fits, BlockCode;
    var list := ReadingBody(x).statements;
    FitsItself(h);
    assert list[1..][0] == Break;
    var first := LowerStmt(list[0], at + 1, h, base + 1, Some(loop), Some(base), mode);
    assert first == Some(LoweredStmt([Ldar(h[x].register)], FlowValue(h[x].ty.value), h));
    var second := LowerStmt(Break, at + 3, h, base + 1, Some(loop), Some(base), mode);
    assert second == Some(LoweredStmt(LeaveCode(at + 3, Some(base), loop.result, loop.brk), FlowAbrupt, h));
    assert LowerList(list[1..], at + 3, h, base + 1, Some(loop), base, mode) == second;
    assert LowerList(list, at + 1, h, base + 1, Some(loop), base, mode)
        == Some(LoweredStmt([Ldar(h[x].register)] + (KeepCode(base, false) + second.value.code), FlowAbrupt, h));
  }

  lemma FitsItself(h: Bindings)
    ensures Fits(h, h)
  {
    FitsIsOrder(h, h);
  }

  /** The stack machine stops at the read, without a completion: the binding is not initialized. */
  lemma StackStops(ops: Operators, code: seq<StackBackend.Op>, x: string, scope: StackBackend.Scope,
      st: StackBackend.State)
    returns (stopped: StackBackend.State)
    requires x in scope && scope[x] < |st.slots| && st.slots[scope[x]].None? && ops.truthy(Boolean(true))
    requires (ReadingBound(x, scope.Keys); CodeAt(code, st.pc,
        StackBackend.StmtCode(ReadingLoop(x), st.pc, scope, 0, 0)))
    ensures Reaches(StackBackend.Machine(ops, code), st, stopped)
    ensures StackBackend.Machine(ops, code)(stopped) == None
    ensures IsOp(code, stopped.pc, StackBackend.Load(scope[x]))
  {
    hide CodeAt, Reaches, StackBackend.Machine, StackBackend.StmtCode, StackBackend.WhileCode, StackBackend.ExprLen;
    ReadingBound(x, scope.Keys);
    var m, s, head := StackBackend.Machine(ops, code), ReadingLoop(x), st.pc + 2;
    assert StackBackend.ExprLen(s.condition) == 1 by {
      OneLong(s.condition);
    }
    var start, next := head + 2, head + 2 + StackBackend.StmtLen(s.body);
    var c, body := StackBackend.ExprCode(s.condition, head, scope),
        StackBackend.StmtCode(s.body, start, scope, next + 1, next);
    LoopUnfolds(s, st.pc, scope);
    StackBackend.Freshens(ops, code, st, StackBackend.WhileCode(head, c, body));
    StackBackend.WhileStands(code, head, c, body);
    var a := st.(pc := head, result := Undefined);
    LastOp(code, head, StackBackend.Constant(Boolean(true)));
    StackBackend.StepConstant(ops, code, a, Boolean(true));
    var d := a.(pc := head + 1, stack := st.stack + [Boolean(true)]);
    StackBackend.StepBranch(ops, code, d, next + 1, StackBackend.False, st.stack, Boolean(true));
    stopped := a.(pc := start);
    StackBackend.One(ops, code, d, stopped);
    First(m, a, d, stopped);
    Then(m, st, a, stopped);
    BodyStarts(x, start, scope, next + 1, next);
    FirstOp(code, start, StackBackend.Load(scope[x]), body[1..]);
    StopsThere(ops, code, stopped, scope[x]);
  }

  lemma OneLong(e: Expr)
    requires e.Literal?
    ensures StackBackend.ExprLen(e) == 1
  {
  }

  lemma LoopUnfolds(s: Stmt, at: nat, scope: StackBackend.Scope)
    requires s.While? && StmtBound(s, scope.Keys)
    ensures var start := at + 2 + StackBackend.ExprLen(s.condition) + 1;
      var next := start + StackBackend.StmtLen(s.body);
      StackBackend.StmtCode(s, at, scope, 0, 0)
          == StackBackend.FreshCode(StackBackend.WhileCode(at + 2, StackBackend.ExprCode(s.condition, at + 2, scope),
          StackBackend.StmtCode(s.body, start, scope, next + 1, next)))
  {
    hide StackBackend.ExprLen, StackBackend.ExprCode, StackBackend.WhileCode, StackBackend.FreshCode;
  }

  lemma BodyStarts(x: string, at: nat, scope: StackBackend.Scope, brk: nat, cont: nat)
    requires x in scope && StmtBound(ReadingBody(x), scope.Keys)
    ensures var code := StackBackend.StmtCode(ReadingBody(x), at, scope, brk, cont);
      |code| > 0 && code == [StackBackend.Load(scope[x])] + code[1..]
  {
    var list := ReadingBody(x).statements;
    assert StackBackend.StmtCode(list[0], at, scope, brk,
        cont) == [StackBackend.Load(scope[x])] + [StackBackend.Result];
  }

  lemma StopsThere(ops: Operators, code: seq<StackBackend.Op>, st: StackBackend.State, slot: nat)
    requires IsOp(code, st.pc, StackBackend.Load(slot)) && slot < |st.slots| && st.slots[slot].None?
    ensures StackBackend.Machine(ops, code)(st) == None
  {
  }

  // ---------- the register machine ----------

  /** The bindings with the type their registers have. */
  function Filled(b: Bindings): (r: Bindings)
    ensures r.Keys == b.Keys
  {
    map x | x in b :: if b[x].ty.Some? then b[x] else b[x].(ty := Some(TUndefined))
  }

  /** The script has the same code when the binding is taken for an initialized one. */
  lemma SameScript(x: string, b: Bindings, base: nat)
    requires x in b && base + 3 <= LAST_REGISTER
    ensures LowerScript([ReadingLoop(x)], 0, b, base).Some?
    ensures LowerScript([ReadingLoop(x)], 0, Filled(b), base) == LowerScript([ReadingLoop(x)], 0, b, base)
    ensures RegisterScript([ReadingLoop(x)], b, base) == LowerScript([ReadingLoop(x)], 0, b, base)
  {
    LoopIsAccepted(x, 3, b, base + 1);
    LoopIsAccepted(x, 3, Filled(b), base + 1);
    LoopIsTyped(x, b, base);
    hide LowerStmt, LoopCode, ReadingCode, ReadingLoop, BodyType;
    assert ![ReadingLoop(x)][0].Empty?;
    ScriptOf(ReadingLoop(x), b, base);
    ScriptOf(ReadingLoop(x), Filled(b), base);
  }

  lemma LoopIsTyped(x: string, b: Bindings, base: nat)
    requires x in b && base + 3 <= LAST_REGISTER
    ensures !ReadingLoop(x).Empty? && (ReadingLoop(x).While? || ReadingLoop(x).DoWhile?)
    ensures BodyType([ReadingLoop(x)], 2, b, base + 1, base, TUndefined) == TUndefined
  {
    LoopIsAccepted(x, 3, b, base + 1);
    hide LowerStmt;
    assert [ReadingLoop(x)][1..] == [];
  }

  lemma ScriptOf(s: Stmt, b: Bindings, base: nat)
    requires (s.While? || s.DoWhile?) && base + 1 <= LAST_REGISTER
    requires LowerStmt(s, 3, b, base + 1, None, None, Declared).Some?
    ensures LowerScript([s], 0, b, base)
            == Some(OneLoop(base, LowerStmt(s, 3, b, base + 1, None, None, Declared).value.code))
  {
    hide LowerStmt;
    var first := LowerStmt(s, 3, b, base + 1, None, None, Declared).value;
    assert [s][1..] == [];
    assert LowerBody([s], 2, b, base + 1, base)
        == Some(LoweredStmt([Ldar(base)] + (first.code + (KeepCode(base, false) + [])), FlowEmpty, first.after));
  }

  /** A script of one loop. */
  function OneLoop(base: nat, loop: seq<Instr>): (code: seq<Instr>) {
    [Lda(Undefined)] + ([Star(base)] + (([Ldar(base)] + (loop + (KeepCode(base, false) + [])))
        + ([Ldar(base)] + [Return])))
  }

  /** The register machine goes on, and returns what a new frame has in the register. */
  lemma RegisterGoesOn(ops: Operators, x: string, b: Bindings, base: nat, scope: StackBackend.Scope,
      slots: seq<Option<Value>>, acc: Value, regs: seq<Value>)
    returns (last: State)
    requires Lawful(ops) && ops.truthy(Boolean(true)) && base + 3 <= LAST_REGISTER
    requires x in b && b[x].ty.None? && Held(b, base, scope, slots, regs)
    requires RegisterScript([ReadingLoop(x)], b, base).Some?
    ensures var code := RegisterScript([ReadingLoop(x)], b, base).value;
      Halts(Machine(ops, code), RegisterStart(acc, regs), last) && IsOp(code, last.pc, Return) && last.acc == Undefined
  {
    hide Lawful, LowerScript, RegisterScript, ReadingLoop, Reaches, Machine, Match, Held, Filled, RegisterEnv;
    SameScript(x, b, base);
    FilledMatch(b, base, scope, slots, regs);
    HeldKeys(b, base, scope, slots, regs);
    var code := RegisterScript([ReadingLoop(x)], b, base).value;
    last := LoopReturns(ops, code, x, Filled(b), base, RegisterEnv(b, base, regs), RegisterStart(acc, regs));
    Stops(ops, code, last);
  }

  lemma LoopReturns(ops: Operators, code: seq<Instr>, x: string, b: Bindings, base: nat, env: Env, t: State)
    returns (last: State)
    requires Lawful(ops) && ops.truthy(Boolean(true)) && t.pc == 0 && x in env && Match(b, env, t.regs, base)
    requires LowerScript([ReadingLoop(x)], 0, b, base) == Some(code)
    ensures Reaches(Machine(ops, code), t, last) && IsOp(code, last.pc, Return) && last.acc == env[x]
  {
    hide Lawful, LowerScript, LowerBody, ReadingLoop, ListBound, EvalList, Reaches, Machine, Match;
    ProgramBound(x, env.Keys);
    assert code[0..|code|] == code;
    last := ScriptRuns(ops, code, [ReadingLoop(x)], b, base, env, t, 0);
    ProgramMeans(ops, x, env);
  }

  lemma HeldKeys(b: Bindings, base: nat, scope: StackBackend.Scope, slots: seq<Option<Value>>, regs: seq<Value>)
    requires Held(b, base, scope, slots, regs)
    ensures Placed(b, base) && |regs| == REGISTERS
    ensures forall x | x in b && b[x].ty.None? :: RegisterEnv(b, base, regs)[x] == Undefined
  {
    forall x | x in b && b[x].ty.None? ensures RegisterEnv(b, base, regs)[x] == Undefined {
      assert HeldAs(b[x], slots[scope[x]], regs[b[x].register]);
    }
  }

  lemma Stops(ops: Operators, code: seq<Instr>, t: State)
    requires IsOp(code, t.pc, Return)
    ensures Machine(ops, code)(t) == None
  {
  }

  lemma FilledMatch(b: Bindings, base: nat, scope: StackBackend.Scope, slots: seq<Option<Value>>, regs: seq<Value>)
    requires Held(b, base, scope, slots, regs)
    ensures Match(Filled(b), RegisterEnv(b, base, regs), regs, base)
  {
    var f, env := Filled(b), RegisterEnv(b, base, regs);
    forall x | x in f ensures f[x].register == b[x].register && Tracks(f[x], env[x]) {
      assert HeldAs(b[x], slots[scope[x]], regs[b[x].register]);
    }
  }

  // ---------- both ----------

  /** On that loop the stack machine stops short of its end, with the error of a read too early, and
      the register machine returns undefined. */
  lemma BackendsPart(ops: Operators, x: string, b: Bindings, base: nat, scope: StackBackend.Scope,
      slots: seq<Option<Value>>, acc: Value, regs: seq<Value>)
    requires Lawful(ops) && ops.truthy(Boolean(true)) && base + 3 <= LAST_REGISTER
    requires x in b && b[x].ty.None? && Held(b, base, scope, slots, regs)
    ensures ListBound([ReadingLoop(x)], scope.Keys) && RegisterScript([ReadingLoop(x)], b, base).Some?
    ensures var script := Emitted([ReadingLoop(x)], b, base, scope);
      && (exists s :: && Halts(StackBackend.Machine(ops, script.stack), StackStart(slots), s)
                      && IsOp(script.stack, s.pc, StackBackend.Load(scope[x])))
      && (exists t :: && Halts(Machine(ops, script.registers), RegisterStart(acc, regs), t)
                      && IsOp(script.registers, t.pc, Return) && t.acc == Undefined)
      && !Agree(ops, script, StackStart(slots), RegisterStart(acc, regs))
  {
    hide Lawful, LowerScript, RegisterScript, ReadingLoop, ListBound, Reaches, StackBackend.ListCode,
        StackBackend.StmtCode,
      StackBackend.Machine, Machine;
    ProgramBound(x, scope.Keys);
    SameScript(x, b, base);
    var script := Emitted([ReadingLoop(x)], b, base, scope);
    assert HeldAs(b[x], slots[scope[x]], regs[b[x].register]);
    OneStatement(ReadingLoop(x), scope);
    ReadingBound(x, scope.Keys);
    assert script.stack[0..|script.stack|] == script.stack;
    var s := StackStops(ops, script.stack, x, scope, StackStart(slots));
    var t := RegisterGoesOn(ops, x, b, base, scope, slots, acc, regs);
    assert Halts(StackBackend.Machine(ops, script.stack), StackStart(slots), s);
    forall t' | Halts(Machine(ops, script.registers), RegisterStart(acc, regs), t') ensures !Same(script, s, t') {
    }
  }

  lemma OneStatement(s: Stmt, scope: StackBackend.Scope)
    requires ListBound([s], scope.Keys)
    ensures StmtBound(s, scope.Keys)
    ensures StackBackend.ListCode([s], 0, scope, 0, 0) == StackBackend.StmtCode(s, 0, scope, 0, 0)
  {
    hide StackBackend.StmtCode;
    assert [s][1..] == [];
  }

  lemma ProgramBound(x: string, names: set<string>)
    requires x in names
    ensures ListBound([ReadingLoop(x)], names)
  {
    hide ReadingLoop;
    ReadingBound(x, names);
    assert [ReadingLoop(x)][1..] == [];
    assert ListBound([], names);
  }

  lemma ReadingBound(x: string, names: set<string>)
    requires x in names
    ensures StmtBound(ReadingLoop(x), names)
  {
    var list, e := ReadingBody(x).statements, Assign(x, None, Literal(Number(0)));
    assert ExprBound(Literal(Number(0)), names);
    assert ExprBound(e, names);
    assert StmtBound(ExprStmt(e), names);
    assert list[1..][1..] == [ExprStmt(e)] && [ExprStmt(e)][1..] == [];
    assert ListBound([], names);
    assert ListBound([ExprStmt(e)], names);
    assert ListBound(list[1..], names);
    assert ExprBound(Name(x), names);
    assert StmtBound(list[0], names);
    assert ListBound(list, names);
    assert StmtBound(ReadingBody(x), names);
  }

  lemma ReadingMeans(ops: Operators, x: string, env: Env)
    requires ops.truthy(Boolean(true)) && x in env && StmtBound(ReadingLoop(x), env.Keys)
    ensures EvalWhile(ops, Literal(Boolean(true)), ReadingBody(x), env, Undefined, 0)
      == Some(Completion(Normal, Some(env[x]), env))
  {
    var list := ReadingBody(x).statements;
    assert list[1..][0] == Break;
    assert ListBound(list, env.Keys);
    assert EvalStmt(ops, list[0], env, 0) == Some(Completion(Normal, Some(env[x]), env));
    assert EvalStmt(ops, Break, env, 0) == Some(Completion(Breaks, None, env));
    assert EvalList(ops, list[1..], env, 0) == Some(Completion(Breaks, None, env));
    assert EvalList(ops, list, env, 0) == Some(Completion(Breaks, Some(env[x]), env));
    assert EvalStmt(ops, ReadingBody(x), env, 0) == Some(Completion(Breaks, Some(env[x]), env));
  }

  lemma ProgramMeans(ops: Operators, x: string, env: Env)
    requires ops.truthy(Boolean(true)) && x in env && ListBound([ReadingLoop(x)], env.Keys)
    ensures EvalList(ops, [ReadingLoop(x)], env, 0) == Some(Completion(Normal, Some(env[x]), env))
  {
    var s := ReadingLoop(x);
    assert [s][1..] == [];
    ReadingMeans(ops, x, env);
    hide EvalWhile;
    assert EvalStmt(ops, s, env, 0) == Some(Completion(Normal, Some(env[x]), env));
    assert EvalList(ops, [], env, 0) == Some(Completion(Normal, None, env));
  }
}
