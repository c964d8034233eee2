module RegisterScripts {
  import opened Wrappers
  import opened Source
  import opened Machines
  import opened CodeLayout
  import opened RegisterTypes
  import opened RegisterMachine
  import opened ExpressionLowering
  import opened RegisterExpressions
  import opened StatementLowering
  import opened StatementKinds
  import opened RegisterStatements
  import opened ScriptLowering

  /** What the machine does with the statements of a script: it goes past them with their value kept,
      or goes on for as many steps as there is fuel. */
  ghost predicate BodyDone(ops: Operators, code: seq<Instr>, program: seq<Stmt>, b: Bindings, base: nat, floor: nat,
      result: nat, env: Env, value: Value, st: State, fuel: nat, regs: seq<Value>, acc: Value) {
    && ListBound(program, env.Keys) && LowerBody(program, st.pc, b, base, result).Some?
    && var r, l := EvalList(ops, program, env, fuel), LowerBody(program, st.pc, b, base, result).value;
       if r.None? then RunsFor(Machine(ops, code), st, fuel)
       else
         && r.value.kind == Normal && Match(l.after, r.value.env, regs, floor)
         && result < |regs| && regs[result] == UpdateEmpty(r.value.value, value)
         && Reaches(Machine(ops, code), st, State(st.pc + |l.code|, acc, regs))
  }

  ghost predicate BodyReady(ops: Operators, code: seq<Instr>, program: seq<Stmt>, b: Bindings, base: nat, floor: nat,
      result: nat, env: Env, value: Value, st: State) {
    && Lawful(ops) && floor <= result < base <= LAST_REGISTER && ListBound(program, env.Keys)
    && Match(b, env, st.regs, floor) && result < |st.regs| && st.regs[result] == value
    && LowerBody(program, st.pc, b, base, result).Some?
    && CodeAt(code, st.pc, LowerBody(program, st.pc, b, base, result).value.code)
  }

  lemma {:induction false} BodyRuns(ops: Operators, code: seq<Instr>, program: seq<Stmt>, b: Bindings, base: nat,
      floor: nat, result: nat, env: Env, value: Value, st: State, fuel: nat)
    returns (regs: seq<Value>, acc: Value)
    requires BodyReady(ops, code, program, b, base, floor, result, env, value, st)
    ensures BodyDone(ops, code, program, b, base, floor, result, env, value, st, fuel, regs, acc)
    decreases program, 1
  {
    hide Lawful, CodeAt, Machine, Reaches, Match, KeptBut, LowerStmt, StmtLen, RunsFor, EvalStmt, KeepCode, LowerBody;
    regs, acc := st.regs, st.acc;
    if program == [] {
      EmptyBody(ops, code, program, b, base, floor, result, env, value, st, fuel);
    } else {
      regs, acc := FirstRuns(ops, code, program, b, base, floor, result, env, value, st, fuel);
    }
  }

  lemma EmptyBody(ops: Operators, code: seq<Instr>, program: seq<Stmt>, b: Bindings, base: nat, floor: nat,
      result: nat, env: Env, value: Value, st: State, fuel: nat)
    requires BodyReady(ops, code, program, b, base, floor, result, env, value, st) && program == []
    ensures BodyDone(ops, code, program, b, base, floor, result, env, value, st, fuel, st.regs, st.acc)
  {
    hide Lawful, CodeAt, Machine, Reaches, Match;
    Here(Machine(ops, code), st);
  }

  /** One level of the lowering of a script. */
  lemma BodyLowers(code: seq<Instr>, program: seq<Stmt>, at: nat, b: Bindings, base: nat, result: nat)
    requires program != [] && LowerBody(program, at, b, base, result).Some?
    requires CodeAt(code, at, LowerBody(program, at, b, base, result).value.code)
    ensures IsOp(code, at, Ldar(result)) && LowerStmt(program[0], at + 1, b, base, None, None, Declared).Some?
    ensures var first := LowerStmt(program[0], at + 1, b, base, None, None, Declared).value;
      var next := at + 1 + StmtLen(program[0], false);
      var start := next + (if HasValue(program[0]) then 1 else 0);
      var rest := LowerBody(program[1..], start, first.after, base, result);
      CodeAt(code, at + 1, first.code) && (!Abrupt(program[0]) ==>
        && CodeAt(code, next, KeepCode(result, !HasValue(program[0])))
        && rest.Some? && rest.value.after == LowerBody(program, at, b, base, result).value.after
        && CodeAt(code, start, rest.value.code)
        && at + |LowerBody(program, at, b, base, result).value.code| == start + |rest.value.code|)
  {
    hide CodeAt, LowerStmt, KeepCode, StmtLen, IsOp;
    var first := LowerStmt(program[0], at + 1, b, base, None, None, Declared).value;
    if Abrupt(program[0]) {
      FirstOp(code, at, Ldar(result), first.code);
    } else {
      var keep := KeepCode(result, !first.flow.FlowValue?);
      var rest := LowerBody(program[1..], at + 1 + |first.code| + |keep|, first.after, base, result).value;
      FirstOp(code, at, Ldar(result), first.code + (keep + rest.code));
      Split(code, at + 1, first.code, keep + rest.code);
      Split(code, at + 1 + |first.code|, keep, rest.code);
    }
  }

  lemma {:induction false} FirstRuns(ops: Operators, code: seq<Instr>, program: seq<Stmt>, b: Bindings, base: nat,
      floor: nat, result: nat, env: Env, value: Value, st: State, fuel: nat)
    returns (regs: seq<Value>, acc: Value)
    requires BodyReady(ops, code, program, b, base, floor, result, env, value, st) && program != []
    ensures BodyDone(ops, code, program, b, base, floor, result, env, value, st, fuel, regs, acc)
    decreases program, 0
  {
    hide Lawful, CodeAt, Machine, Reaches, Match, KeptBut, LowerStmt, StmtLen, RunsFor, EvalStmt, KeepCode, LowerBody;
    var m := Machine(ops, code);
    BodyLowers(code, program, st.pc, b, base, result);
    Sized(b, env, st.regs, floor);
    StepLdar(ops, code, st, result);
    var a := State(st.pc + 1, value, st.regs);
    One(ops, code, st, a);
    var between := StmtRuns(ops, code, program[0], b, base, floor, None, None, Declared, env, a, fuel);
    regs, acc := between, value;
    var r := EvalStmt(ops, program[0], env, fuel);
    if r.None? {
      RunsOn(m, st, a, fuel);
    } else {
      NormalFits(ops, program[0], env, fuel);
      var first := LowerStmt(program[0], a.pc, b, base, None, None, Declared).value;
      KeptNarrow(st.regs, between, floor, base, None, result);
      Sized(first.after, r.value.env, between, floor);
      var f := State(a.pc + StmtLen(program[0], false), UpdateEmpty(r.value.value, value), between);
      var c := KeepRuns(ops, code, f, result, !HasValue(program[0]));
      MatchTemp(first.after, r.value.env, between, floor, result, f.acc);
      Then(m, a, f, c);
      Then(m, st, a, c);
      regs, acc := BodyRuns(ops, code, program[1..], first.after, base, floor, result, r.value.env, f.acc, c, fuel);
      var rest := EvalList(ops, program[1..], r.value.env, fuel);
      if rest.None? {
        RunsOn(m, st, c, fuel);
      } else {
        Then(m, st, c, State(st.pc + |LowerBody(program, st.pc, b, base, result).value.code|, acc, regs));
      }
    }
  }

  /** What a script answers: its value in the accumulator, at the return. */
  ghost predicate Returns(ops: Operators, code: seq<Instr>, b: Bindings, env: Env, floor: nat, value: Value,
      st: State, last: State) {
    && Reaches(Machine(ops, code), st, last) && IsOp(code, last.pc, Return) && last.acc == value
    && Match(b, env, last.regs, floor)
  }

  /** A lowered script returns the value the source means, or goes on as the source does. */
  lemma ScriptRuns(ops: Operators, code: seq<Instr>, program: seq<Stmt>, b: Bindings, base: nat, env: Env, st: State,
      fuel: nat)
    returns (last: State)
    requires Lawful(ops) && Match(b, env, st.regs, base) && ListBound(program, env.Keys)
    requires LowerScript(program, st.pc, b, base).Some?
        && CodeAt(code, st.pc, LowerScript(program, st.pc, b, base).value)
    ensures var r := EvalList(ops, program, env, fuel);
      && (r.None? ==> RunsFor(Machine(ops, code), st, fuel))
      && (r.Some? ==>
        && r.value.kind == Normal && LowerBody(program, st.pc + 2, b, base + 1, base).Some?
        && Returns(ops, code, LowerBody(program, st.pc + 2, b, base + 1, base).value.after, r.value.env, base,
             UpdateEmpty(r.value.value, Undefined), st, last))
  {
    hide Lawful, CodeAt, Machine, Reaches, Match, RunsFor, EvalList, LowerBody;
    var m, at := Machine(ops, code), st.pc;
    var body := LowerBody(program, at + 2, b, base + 1, base).value;
    ScriptStands(code, at, base, body.code);
    Sized(b, env, st.regs, base);
    StepLda(ops, code, st, Undefined);
    var a := State(at + 1, Undefined, st.regs);
    StepStar(ops, code, a, base);
    var c := State(at + 2, Undefined, st.regs[base := Undefined]);
    One(ops, code, a, c);
    First(m, st, a, c);
    MatchTemp(b, env, st.regs, base, base, Undefined);
    var regs, acc := BodyRuns(ops, code, program, b, base + 1, base, base, env, Undefined, c, fuel);
    last := c;
    var r := EvalList(ops, program, env, fuel);
    if r.None? {
      RunsOn(m, st, c, fuel);
    } else {
      Sized(body.after, r.value.env, regs, base);
      var f := State(at + 2 + |body.code|, acc, regs);
      StepLdar(ops, code, f, base);
      last := State(f.pc + 1, regs[base], regs);
      One(ops, code, f, last);
      Then(m, c, f, last);
      Then(m, st, c, last);
    }
  }

  lemma ScriptStands(code: seq<Instr>, at: nat, base: nat, body: seq<Instr>)
    requires CodeAt(code, at, [Lda(Undefined)] + ([Star(base)] + (body + ([Ldar(base)] + [Return]))))
    ensures IsOp(code, at, Lda(Undefined)) && IsOp(code, at + 1, Star(base)) && CodeAt(code, at + 2, body)
    ensures IsOp(code, at + 2 + |body|, Ldar(base)) && IsOp(code, at + 3 + |body|, Return)
  {
    hide CodeAt, IsOp;
    var tail := [Ldar(base)] + [Return];
    FirstOp(code, at, Lda(Undefined), [Star(base)] + (body + tail));
    FirstOp(code, at + 1, Star(base), body + tail);
    Split(code, at + 2, body, tail);
    FirstOp(code, at + 2 + |body|, Ldar(base), [Return]);
    LastOp(code, at + 3 + |body|, Return);
  }
}
