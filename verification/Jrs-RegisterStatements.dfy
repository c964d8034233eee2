/** Lowered statements do what the source means. */
module RegisterStatements {
  import opened Wrappers
  import opened Source
  import opened Machines
  import opened CodeLayout
  import opened RegisterTypes
  import opened TypeInference
  import opened RegisterMachine
  import opened ExpressionLowering
  import opened RegisterExpressions
  import opened StatementLowering
  import opened StatementKinds

  /** Registers in use are left alone, but for the one the loop around keeps its value in. */
  ghost predicate KeptBut(regs: seq<Value>, regs': seq<Value>, floor: nat, base: nat, loop: Option<Loop>) {
    |regs| == |regs'| &&
    forall r | floor <= r < base && r < |regs| && (loop.Some? ==> r != loop.value.result) :: regs'[r] == regs[r]
  }

  lemma KeptIsKeptBut(x: seq<Value>, y: seq<Value>, floor: nat, base: nat, loop: Option<Loop>)
    requires Kept(x, y, floor, base)
    ensures KeptBut(x, y, floor, base, loop)
  {
  }

  lemma KeptButThen(x: seq<Value>, y: seq<Value>, z: seq<Value>, floor: nat, base: nat, base': nat, loop: Option<Loop>)
    requires KeptBut(x, y, floor, base, loop) && KeptBut(y, z, floor, base', loop) && base <= base'
    ensures KeptBut(x, z, floor, base, loop)
  {
  }

  lemma KeptButTemp(x: seq<Value>, y: seq<Value>, floor: nat, base: nat, loop: Option<Loop>, r: nat, v: Value)
    requires KeptBut(x, y, floor, base, loop) && r < |y|
    requires base <= r || (loop.Some? && r == loop.value.result)
    ensures KeptBut(x, y[r := v], floor, base, loop)
  {
  }

  /** The loop's value has a register in use, and the value so far another. */
  ghost predicate Framed(floor: nat, base: nat, loop: Option<Loop>, completion: Option<nat>) {
    && floor <= base <= LAST_REGISTER
    && (loop.Some? ==> floor <= loop.value.result < base)
    && (completion.Some? ==> floor <= completion.value < base)
    && (loop.Some? && completion.Some? ==> completion.value != loop.value.result)
  }

  /** The statement stands where the machine is, the registers hold its bindings, and the value so
      far is in the accumulator and in the register for it. */
  ghost predicate StmtReady(ops: Operators, code: seq<Instr>, s: Stmt, b: Bindings, base: nat, floor: nat,
      loop: Option<Loop>, completion: Option<nat>, mode: Head, env: Env, st: State) {
    && Lawful(ops) && Framed(floor, base, loop, completion) && Match(b, env, st.regs, floor) && StmtBound(s, env.Keys)
    && LowerStmt(s, st.pc, b, base, loop, completion, mode).Some?
    && CodeAt(code, st.pc, LowerStmt(s, st.pc, b, base, loop, completion, mode).value.code)
    && (completion.Some? && |st.regs| == REGISTERS ==> st.regs[completion.value] == st.acc)
  }

  function Exit(kind: Kind, end: nat, loop: Option<Loop>): (pc: nat) {
    if kind == Normal || loop.None? then end else if kind == Breaks then loop.value.brk else loop.value.cont
  }

  /** A machine does what a completion says. At the statement's end the accumulator has its value,
      or the value from before where that is empty, and the bindings are of the types tracked there.
      A jump keeps the value for the loop, and the bindings are of the types at the loop's head.
      Where there is no completion within the fuel, it goes on for as many steps. */
  ghost predicate Completes(ops: Operators, code: seq<Instr>, st: State, end: nat, after: Bindings, base: nat,
      floor: nat, loop: Option<Loop>, r: Option<Completion>, fuel: nat, regs: seq<Value>) {
    if r.None? then RunsFor(Machine(ops, code), st, fuel)
    else
      var value := UpdateEmpty(r.value.value, st.acc);
      && KeptBut(st.regs, regs, floor, base, loop)
      && Reaches(Machine(ops, code), st, State(Exit(r.value.kind, end, loop), value, regs))
      && if r.value.kind == Normal then Match(after, r.value.env, regs, floor)
         else loop.Some? && Match(loop.value.head, r.value.env, regs, floor)
              && |regs| == REGISTERS && loop.value.result < REGISTERS && regs[loop.value.result] == value
  }

  /** The machine does what the statement means. */
  ghost predicate StmtDone(ops: Operators, code: seq<Instr>, s: Stmt, b: Bindings, base: nat, floor: nat,
      loop: Option<Loop>, completion: Option<nat>, mode: Head, env: Env, st: State, fuel: nat, regs: seq<Value>) {
    && StmtBound(s, env.Keys) && LowerStmt(s, st.pc, b, base, loop, completion, mode).Some?
    && Completes(ops, code, st, st.pc + StmtLen(s, completion.Some?),
         LowerStmt(s, st.pc, b, base, loop, completion, mode).value.after, base, floor, loop,
         EvalStmt(ops, s, env, fuel), fuel, regs)
  }

  /** What a machine does from a state it reaches, it does from before. */
  lemma Enter(ops: Operators, code: seq<Instr>, a: State, st: State, end: nat, after: Bindings, base: nat, floor: nat,
      loop: Option<Loop>, r: Option<Completion>, fuel: nat, regs: seq<Value>)
    requires Reaches(Machine(ops, code), a, st)
        && Completes(ops, code, st, end, after, base, floor, loop, r, fuel, regs)
    ensures r.None? ==> RunsFor(Machine(ops, code), a, fuel)
    ensures r.Some? ==> Reaches(Machine(ops, code), a,
      State(Exit(r.value.kind, end, loop), UpdateEmpty(r.value.value, st.acc), regs))
  {
    hide Machine, Reaches, RunsFor, Match, KeptBut;
    if r.None? {
      RunsOn(Machine(ops, code), a, st, fuel);
    } else {
      Then(Machine(ops, code), a, st, State(Exit(r.value.kind, end, loop), UpdateEmpty(r.value.value, st.acc), regs));
    }
  }

  lemma ExprStmtRuns(ops: Operators, code: seq<Instr>, s: Stmt, b: Bindings, base: nat, floor: nat,
      loop: Option<Loop>, completion: Option<nat>, mode: Head, env: Env, st: State, fuel: nat)
    returns (regs: seq<Value>)
    requires StmtReady(ops, code, s, b, base, floor, loop, completion, mode, env, st) && s.ExprStmt?
    ensures StmtDone(ops, code, s, b, base, floor, loop, completion, mode, env, st, fuel, regs)
  {
    hide Lawful, CodeAt, Machine, Reaches, Match, Kept, KeptBut, LowerExpr, EvalExpr, ExprLen;
    regs := ExprRuns(ops, code, s.expression, b, base, floor, env, st);
    KeptIsKeptBut(st.regs, regs, floor, base, loop);
  }

  lemma LeaveStands(code: seq<Instr>, at: nat, completion: Option<nat>, result: nat, target: nat)
    requires CodeAt(code, at, LeaveCode(at, completion, result, target))
    ensures completion.None? ==> IsOp(code, at, Star(result)) && IsOp(code, at + 1, Jump(target - (at + 2)))
    ensures completion.Some? ==> IsOp(code, at, Ldar(completion.value)) && IsOp(code, at + 1, Star(result))
    ensures completion.Some? ==> IsOp(code, at + 2, Jump(target - (at + 3)))
  {
    hide CodeAt, IsOp;
    if completion.Some? {
      FirstOp(code, at, Ldar(completion.value), [Star(result)] + [Jump(target - (at + 3))]);
      FirstOp(code, at + 1, Star(result), [Jump(target - (at + 3))]);
      LastOp(code, at + 2, Jump(target - (at + 3)));
    } else {
      FirstOp(code, at, Star(result), [Jump(target - (at + 2))]);
      LastOp(code, at + 1, Jump(target - (at + 2)));
    }
  }

  lemma LeaveRuns(ops: Operators, code: seq<Instr>, s: Stmt, b: Bindings, base: nat, floor: nat, loop: Option<Loop>,
      completion: Option<nat>, mode: Head, env: Env, st: State, fuel: nat)
    returns (regs: seq<Value>)
    requires StmtReady(ops, code, s, b, base, floor, loop, completion, mode, env, st) && (s.Break? || s.Continue?)
    ensures StmtDone(ops, code, s, b, base, floor, loop, completion, mode, env, st, fuel, regs)
  {
    hide Lawful, CodeAt, Machine, Reaches, Match, Fits, LeaveCode;
    var m, result := Machine(ops, code), loop.value.result;
    var target := if s.Break? then loop.value.brk else loop.value.cont;
    LeaveStands(code, st.pc, completion, result, target);
    Sized(b, env, st.regs, floor);
    FitsIsOrder(b, loop.value.head);
    MatchBelow(b, loop.value.head, env, st.regs, floor);
    MatchTemp(loop.value.head, env, st.regs, floor, result, st.acc);
    regs := st.regs[result := st.acc];
    var a := if completion.Some? then st.(pc := st.pc + 1) else st;
    if completion.Some? {
      StepLdar(ops, code, st, completion.value);
    }
    StepStar(ops, code, a, result);
    var c := a.(pc := a.pc + 1, regs := regs);
    StepJump(ops, code, c, target);
    One(ops, code, c, c.(pc := target));
    First(m, a, c, c.(pc := target));
    if completion.Some? {
      First(m, st, a, c.(pc := target));
    }
  }

  lemma EmptyRuns(ops: Operators, code: seq<Instr>, s: Stmt, b: Bindings, base: nat, floor: nat, loop: Option<Loop>,
      completion: Option<nat>, mode: Head, env: Env, st: State, fuel: nat)
    returns (regs: seq<Value>)
    requires StmtReady(ops, code, s, b, base, floor, loop, completion, mode, env, st) && s.Empty?
    ensures StmtDone(ops, code, s, b, base, floor, loop, completion, mode, env, st, fuel, regs)
  {
    hide Lawful, CodeAt, Machine, Reaches, Match;
    regs := st.regs;
    Here(Machine(ops, code), st);
  }

  lemma {:induction false} StmtRuns(ops: Operators, code: seq<Instr>, s: Stmt, b: Bindings, base: nat, floor: nat,
      loop: Option<Loop>, completion: Option<nat>, mode: Head, env: Env, st: State, fuel: nat)
    returns (regs: seq<Value>)
    requires StmtReady(ops, code, s, b, base, floor, loop, completion, mode, env, st)
    ensures StmtDone(ops, code, s, b, base, floor, loop, completion, mode, env, st, fuel, regs)
    decreases fuel, s, 1
  {
    hide StmtReady, StmtDone;
    match s
    case ExprStmt(_) =>
      regs := ExprStmtRuns(ops, code, s, b, base, floor, loop, completion, mode, env, st, fuel);
    case Block(_) =>
      regs := BlockRuns(ops, code, s, b, base, floor, loop, completion, mode, env, st, fuel);
    case If(_, _, _) =>
      regs := IfRuns(ops, code, s, b, base, floor, loop, completion, mode, env, st, fuel);
    case While(_, _) =>
      regs := LoopRuns(ops, code, s, b, base, floor, loop, completion, mode, env, st, fuel);
    case DoWhile(_, _) =>
      regs := LoopRuns(ops, code, s, b, base, floor, loop, completion, mode, env, st, fuel);
    case Empty =>
      regs := EmptyRuns(ops, code, s, b, base, floor, loop, completion, mode, env, st, fuel);
    case _ =>
      regs := LeaveRuns(ops, code, s, b, base, floor, loop, completion, mode, env, st, fuel);
  }

  // ---------- statement lists ----------

  ghost predicate ListReady(ops: Operators, code: seq<Instr>, body: seq<Stmt>, b: Bindings, base: nat, floor: nat,
      loop: Option<Loop>, result: nat, mode: Head, env: Env, st: State) {
    && Lawful(ops) && Framed(floor, base, loop, Some(result)) && Match(b, env, st.regs, floor)
    && ListBound(body, env.Keys)
    && LowerList(body, st.pc, b, base, loop, result, mode).Some?
    && CodeAt(code, st.pc, LowerList(body, st.pc, b, base, loop, result, mode).value.code)
    && (|st.regs| == REGISTERS ==> st.regs[result] == st.acc)
  }

  ghost predicate ListDone(ops: Operators, code: seq<Instr>, body: seq<Stmt>, b: Bindings, base: nat, floor: nat,
      loop: Option<Loop>, result: nat, mode: Head, env: Env, st: State, fuel: nat, regs: seq<Value>) {
    && ListBound(body, env.Keys) && LowerList(body, st.pc, b, base, loop, result, mode).Some?
    && var r := EvalList(ops, body, env, fuel);
       Completes(ops, code, st, st.pc + ListLen(body), LowerList(body, st.pc, b, base, loop, result, mode).value.after,
         result, floor, loop, r, fuel, regs)
       && (r.Some? && r.value.kind == Normal && result < |regs| ==> regs[result] == UpdateEmpty(r.value.value, st.acc))
  }

  /** One level of the lowering of a list. */
  lemma ListLowers(code: seq<Instr>, body: seq<Stmt>, at: nat, b: Bindings, base: nat, loop: Option<Loop>,
      result: nat, mode: Head)
    requires body != [] && LowerList(body, at, b, base, loop, result, mode).Some?
    requires CodeAt(code, at, LowerList(body, at, b, base, loop, result, mode).value.code)
    ensures LowerStmt(body[0], at, b, base, loop, Some(result), mode).Some?
    ensures var first := LowerStmt(body[0], at, b, base, loop, Some(result), mode).value;
      var next := at + StmtLen(body[0], true);
      var rest := next + (if HasValue(body[0]) then 1 else 0);
      CodeAt(code, at, first.code) && (!Abrupt(body[0]) ==>
        CodeAt(code, next, KeepCode(result, !HasValue(body[0])))
        && LowerList(body[1..], rest, first.after, base, loop, result, mode).Some?
        && LowerList(body[1..], rest, first.after, base, loop, result, mode).value.after
          == LowerList(body, at, b, base, loop, result, mode).value.after
        && CodeAt(code, rest, LowerList(body[1..], rest, first.after, base, loop, result, mode).value.code))
  {
    hide CodeAt, LowerStmt, KeepCode, StmtLen;
    var first := LowerStmt(body[0], at, b, base, loop, Some(result), mode).value;
    if !Abrupt(body[0]) {
      var keep := KeepCode(result, !first.flow.FlowValue?);
      var rest := LowerList(body[1..], at + |first.code| + |keep|, first.after, base, loop, result, mode).value;
      Split(code, at, first.code, keep + rest.code);
      Split(code, at + |first.code|, keep, rest.code);
    }
  }

  /** A value that is new is kept; one that is not is there already. */
  lemma KeepRuns(ops: Operators, code: seq<Instr>, st: State, result: nat, skip: bool) returns (a: State)
    requires CodeAt(code, st.pc, KeepCode(result, skip)) && |st.regs| == REGISTERS && result < REGISTERS
    requires skip ==> st.regs[result] == st.acc
    ensures a == State(st.pc + (if skip then 0 else 1), st.acc, st.regs[result := st.acc])
    ensures Reaches(Machine(ops, code), st, a)
  {
    hide CodeAt, Machine, Reaches;
    a := State(st.pc + (if skip then 0 else 1), st.acc, st.regs[result := st.acc]);
    if skip {
      assert a == st;
      Here(Machine(ops, code), st);
    } else {
      LastOp(code, st.pc, Star(result));
      StepStar(ops, code, st, result);
      One(ops, code, st, a);
    }
  }

  lemma {:induction false} ListRuns(ops: Operators, code: seq<Instr>, body: seq<Stmt>, b: Bindings, base: nat,
      floor: nat, loop: Option<Loop>, result: nat, mode: Head, env: Env, st: State, fuel: nat)
    returns (regs: seq<Value>)
    requires ListReady(ops, code, body, b, base, floor, loop, result, mode, env, st)
    requires loop.Some? ==> loop.value.result < result
    ensures ListDone(ops, code, body, b, base, floor, loop, result, mode, env, st, fuel, regs)
    decreases fuel, body, 0
  {
    hide Lawful, CodeAt, Machine, Reaches, Match, KeptBut, LowerStmt, EvalStmt, StmtLen, RunsFor, KeepCode, LowerList;
    regs := st.regs;
    Sized(b, env, st.regs, floor);
    if body == [] {
      EmptyListRuns(ops, code, body, b, base, floor, loop, result, mode, env, st, fuel);
    } else {
      ListLowers(code, body, st.pc, b, base, loop, result, mode);
      regs := StmtRuns(ops, code, body[0], b, base, floor, loop, Some(result), mode, env, st, fuel);
      var r := EvalStmt(ops, body[0], env, fuel);
      if r.Some? {
        KeptNarrow(st.regs, regs, floor, base, loop, result);
        if r.value.kind == Normal {
          NormalFits(ops, body[0], env, fuel);
          regs := RestRuns(ops, code, body, b, base, floor, loop, result, mode, env, st, fuel, regs);
        }
      }
    }
  }

  lemma EmptyListRuns(ops: Operators, code: seq<Instr>, body: seq<Stmt>, b: Bindings, base: nat, floor: nat,
      loop: Option<Loop>, result: nat, mode: Head, env: Env, st: State, fuel: nat)
    requires ListReady(ops, code, body, b, base, floor, loop, result, mode, env, st) && body == []
    ensures ListDone(ops, code, body, b, base, floor, loop, result, mode, env, st, fuel, st.regs)
  {
    hide Lawful, CodeAt, Machine, Reaches, Match;
    Sized(b, env, st.regs, floor);
    Here(Machine(ops, code), st);
  }

  /** The rest of a list whose first statement reached its end. */
  lemma {:induction false} RestRuns(ops: Operators, code: seq<Instr>, body: seq<Stmt>, b: Bindings, base: nat,
      floor: nat, loop: Option<Loop>, result: nat, mode: Head, env: Env, st: State, fuel: nat, between: seq<Value>)
    returns (regs: seq<Value>)
    requires ListReady(ops, code, body, b, base, floor, loop, result, mode, env, st) && body != []
    requires loop.Some? ==> loop.value.result < result
    requires StmtDone(ops, code, body[0], b, base, floor, loop, Some(result), mode, env, st, fuel, between)
    requires var r := EvalStmt(ops, body[0], env, fuel);
      r.Some? && r.value.kind == Normal && !Abrupt(body[0]) && (r.value.value.Some? <==> HasValue(body[0]))
    ensures ListDone(ops, code, body, b, base, floor, loop, result, mode, env, st, fuel, regs)
    decreases fuel, body[1..], 1
  {
    hide Lawful, CodeAt, Machine, Reaches, Match, KeptBut, LowerStmt, EvalStmt, StmtLen, RunsFor, KeepCode, LowerList;
    Sized(b, env, st.regs, floor);
    ListLowers(code, body, st.pc, b, base, loop, result, mode);
    var first := LowerStmt(body[0], st.pc, b, base, loop, Some(result), mode).value;
    var r := EvalStmt(ops, body[0], env, fuel).value;
    KeptNarrow(st.regs, between, floor, base, loop, result);
    var f := State(st.pc + StmtLen(body[0], true), UpdateEmpty(r.value, st.acc), between);
    Sized(first.after, r.env, between, floor);
    var a := KeepRuns(ops, code, f, result, !HasValue(body[0]));
    MatchTemp(first.after, r.env, between, floor, result, f.acc);
    KeptButTemp(st.regs, between, floor, result, loop, result, f.acc);
    Then(Machine(ops, code), st, f, a);
    regs := ListRuns(ops, code, body[1..], first.after, base, floor, loop, result, mode, r.env, a, fuel);
    var rest := EvalList(ops, body[1..], r.env, fuel);
    Enter(ops, code, st, a, st.pc + ListLen(body),
      LowerList(body, st.pc, b, base, loop, result, mode).value.after, result, floor, loop, rest, fuel, regs);
    if rest.Some? {
      KeptButThen(st.regs, a.regs, regs, floor, result, result, loop);
    }
  }

  lemma KeptSelf(x: seq<Value>, floor: nat, base: nat, loop: Option<Loop>)
    ensures KeptBut(x, x, floor, base, loop)
  {
  }

  lemma KeptNarrow(x: seq<Value>, y: seq<Value>, floor: nat, base: nat, loop: Option<Loop>, result: nat)
    requires KeptBut(x, y, floor, base, loop) && floor <= result < base && (loop.Some? ==> loop.value.result < result)
    ensures KeptBut(x, y, floor, result, loop) && |x| == |y| && (result < |x| ==> y[result] == x[result])
  {
  }

  lemma BlockLowers(code: seq<Instr>, s: Stmt, at: nat, b: Bindings, base: nat, loop: Option<Loop>,
      completion: Option<nat>, mode: Head)
    requires s.Block? && LowerStmt(s, at, b, base, loop, completion, mode).Some?
    requires CodeAt(code, at, LowerStmt(s, at, b, base, loop, completion, mode).value.code)
    ensures base + 1 <= LAST_REGISTER && LowerList(s.statements, at + 1, b, base + 1, loop, base, mode).Some?
    ensures var list := LowerList(s.statements, at + 1, b, base + 1, loop, base, mode).value;
      LowerStmt(s, at, b, base, loop, completion, mode).value.after == list.after
      && IsOp(code, at, Star(base)) && CodeAt(code, at + 1, list.code)
      && (!ListAbrupt(s.statements) ==> IsOp(code, at + 1 + ListLen(s.statements), Ldar(base)))
    ensures StmtLen(s, completion.Some?) == 1 + ListLen(s.statements) + (if ListAbrupt(s.statements) then 0 else 1)
  {
    hide CodeAt, IsOp, LowerList, ListLen;
    var list := LowerList(s.statements, at + 1, b, base + 1, loop, base, mode).value;
    var tail := if ListAbrupt(s.statements) then [] else [Ldar(base)];
    FirstOp(code, at, Star(base), list.code + tail);
    Split(code, at + 1, list.code, tail);
    if !ListAbrupt(s.statements) {
      LastOp(code, at + 1 + |list.code|, Ldar(base));
    }
  }

  lemma BlockRuns(ops: Operators, code: seq<Instr>, s: Stmt, b: Bindings, base: nat, floor: nat, loop: Option<Loop>,
      completion: Option<nat>, mode: Head, env: Env, st: State, fuel: nat)
    returns (regs: seq<Value>)
    requires StmtReady(ops, code, s, b, base, floor, loop, completion, mode, env, st) && s.Block?
    ensures StmtDone(ops, code, s, b, base, floor, loop, completion, mode, env, st, fuel, regs)
    decreases fuel, s, 0
  {
    hide Lawful, CodeAt, Machine, Reaches, Match, KeptBut, LowerStmt, StmtLen, RunsFor, LowerList, ListLen, EvalList;
    var m := Machine(ops, code);
    Sized(b, env, st.regs, floor);
    BlockLowers(code, s, st.pc, b, base, loop, completion, mode);
    StepStar(ops, code, st, base);
    var a := st.(pc := st.pc + 1, regs := st.regs[base := st.acc]);
    One(ops, code, st, a);
    MatchTemp(b, env, st.regs, floor, base, st.acc);
    KeptSelf(st.regs, floor, base, loop);
    KeptButTemp(st.regs, st.regs, floor, base, loop, base, st.acc);
    regs := ListRuns(ops, code, s.statements, b, base + 1, floor, loop, base, mode, env, a, fuel);
    var r := EvalList(ops, s.statements, env, fuel);
    var list := LowerList(s.statements, st.pc + 1, b, base + 1, loop, base, mode).value;
    Enter(ops, code, st, a, a.pc + ListLen(s.statements), list.after, base, floor, loop, r, fuel, regs);
    if r.Some? {
      KeptButThen(st.regs, a.regs, regs, floor, base, base, loop);
      if r.value.kind == Normal {
        ListFits(ops, s.statements, env, fuel);
        Sized(list.after, r.value.env, regs, floor);
        var c := State(a.pc + ListLen(s.statements), UpdateEmpty(r.value.value, st.acc), regs);
        StepLdar(ops, code, c, base);
        One(ops, code, c, c.(pc := c.pc + 1));
        Then(m, st, c, c.(pc := c.pc + 1));
      }
    }
  }

  // ---------- branches ----------

  lemma BranchStands(code: seq<Instr>, at: nat, completion: nat, body: seq<Instr>)
    requires CodeAt(code, at, BranchCode(completion, body))
    ensures IsOp(code, at, Lda(Undefined)) && IsOp(code, at + 1, Star(completion)) && CodeAt(code, at + 2, body)
  {
    hide CodeAt, IsOp;
    FirstOp(code, at, Lda(Undefined), [Star(completion)] + body);
    FirstOp(code, at + 1, Star(completion), body);
  }

  lemma IfStands(code: seq<Instr>, at: nat, condition: seq<Instr>, yes: seq<Instr>, abrupt: bool, no: seq<Instr>)
    requires CodeAt(code, at, IfCode(condition, yes, abrupt, no))
    ensures var start := at + |condition| + 1;
      var other := start + |yes| + (if abrupt then 0 else 1);
      CodeAt(code, at, condition) && IsOp(code, at + |condition|, JumpIfFalse(|yes| + (if abrupt then 0 else 1)))
      && CodeAt(code, start, yes) && (!abrupt ==> IsOp(code, start + |yes|, Jump(|no|))) && CodeAt(code, other, no)
  {
    hide CodeAt, IsOp;
    var jump := if abrupt then [] else [Jump(|no|)];
    var branch := JumpIfFalse(|yes| + |jump|);
    var start := at + |condition| + 1;
    Split(code, at, condition, [branch] + (yes + (jump + no)));
    FirstOp(code, at + |condition|, branch, yes + (jump + no));
    Split(code, start, yes, jump + no);
    Split(code, start + |yes|, jump, no);
    if !abrupt {
      LastOp(code, start + |yes|, Jump(|no|));
    }
  }

  /** The two instructions in front of a branch. */
  lemma BranchStarts(ops: Operators, code: seq<Instr>, st: State, completion: nat, body: seq<Instr>)
    requires CodeAt(code, st.pc, BranchCode(completion, body)) && |st.regs| == REGISTERS && completion < REGISTERS
    ensures CodeAt(code, st.pc + 2, body)
    ensures Reaches(Machine(ops, code), st, State(st.pc + 2, Undefined, st.regs[completion := Undefined]))
  {
    hide CodeAt, Machine, Reaches, BranchCode;
    BranchStands(code, st.pc, completion, body);
    StepLda(ops, code, st, Undefined);
    var a := st.(pc := st.pc + 1, acc := Undefined);
    StepStar(ops, code, a, completion);
    var c := State(st.pc + 2, Undefined, st.regs[completion := Undefined]);
    One(ops, code, a, c);
    First(Machine(ops, code), st, a, c);
  }

  /** A branch of an `if`. */
  lemma {:induction false} BranchRuns(ops: Operators, code: seq<Instr>, s: Stmt, b: Bindings, base: nat, floor: nat,
      loop: Option<Loop>, mode: Head, env: Env, st: State, fuel: nat)
    returns (regs: seq<Value>)
    requires Lawful(ops) && Framed(floor, base, loop, None) && base + 1 <= LAST_REGISTER
    requires Match(b, env, st.regs, floor) && StmtBound(s, env.Keys)
    requires LowerStmt(s, st.pc + 2, b, base + 1, loop, Some(base), mode).Some?
    requires CodeAt(code, st.pc, BranchCode(base,
        LowerStmt(s, st.pc + 2, b, base + 1, loop, Some(base), mode).value.code))
    ensures Completes(ops, code, st, st.pc + 2 + StmtLen(s, true),
      LowerStmt(s, st.pc + 2, b, base + 1, loop, Some(base), mode).value.after, base, floor, loop,
      Valuable(EvalStmt(ops, s, env, fuel)), fuel, regs)
    decreases fuel, s, 2
  {
    hide Lawful, CodeAt, Machine, Reaches, Match, KeptBut, LowerStmt, StmtLen, RunsFor, EvalStmt, BranchCode;
    Sized(b, env, st.regs, floor);
    BranchStarts(ops, code, st, base, LowerStmt(s, st.pc + 2, b, base + 1, loop, Some(base), mode).value.code);
    var a := State(st.pc + 2, Undefined, st.regs[base := Undefined]);
    MatchTemp(b, env, st.regs, floor, base, Undefined);
    KeptSelf(st.regs, floor, base, loop);
    KeptButTemp(st.regs, st.regs, floor, base, loop, base, Undefined);
    regs := StmtRuns(ops, code, s, b, base + 1, floor, loop, Some(base), mode, env, a, fuel);
    var r := EvalStmt(ops, s, env, fuel);
    Enter(ops, code, st, a, a.pc + StmtLen(s, true),
      LowerStmt(s, st.pc + 2, b, base + 1, loop, Some(base), mode).value.after, base + 1, floor, loop, r, fuel, regs);
    if r.Some? {
      KeptNarrow(a.regs, regs, floor, base + 1, loop, base);
      KeptButThen(st.regs, a.regs, regs, floor, base, base, loop);
    }
  }

  /** Where the parts of an `if` stand. */
  ghost predicate IfLaid(code: seq<Instr>, s: Stmt, at: nat, b: Bindings, base: nat, loop: Option<Loop>, mode: Head,
      after: Bindings, end: nat)
    requires s.If? && LowerExpr(s.condition, b, base).Some?
  {
    hide LowerStmt, LowerExpr, LoweredNo, BranchCode, Join, CodeAt, StmtLen;
    var c := LowerExpr(s.condition, b, base).value;
    var start := at + ExprLen(s.condition) + 1;
    var other := start + 2 + StmtLen(s.yes, true) + (if Abrupt(s.yes) then 0 else 1);
    var yes := LowerStmt(s.yes, start + 2, c.after, base + 1, loop, Some(base), mode);
    var no := LoweredNo(s, other + 2, c.after, base, loop, mode);
    && yes.Some? && no.Some? && CodeAt(code, at, c.code)
    && IsOp(code, start - 1, JumpIfFalse(other - start))
    && CodeAt(code, start, BranchCode(base, yes.value.code))
    && (!Abrupt(s.yes) ==> IsOp(code, other - 1, Jump(|no.value.code| + 2)))
    && CodeAt(code, other, BranchCode(base, no.value.code))
    && Join(yes.value, no.value) == Some(after) && end == other + 2 + |no.value.code|
  }

  lemma {:induction false} IfLowers(code: seq<Instr>, s: Stmt, at: nat, b: Bindings, base: nat, loop: Option<Loop>,
      completion: Option<nat>, mode: Head)
    requires s.If? && LowerStmt(s, at, b, base, loop, completion, mode).Some?
    requires CodeAt(code, at, LowerStmt(s, at, b, base, loop, completion, mode).value.code)
    ensures base + 1 <= LAST_REGISTER && LowerExpr(s.condition, b, base).Some?
    ensures IfLaid(code, s, at, b, base, loop, mode, LowerStmt(s, at, b, base, loop, completion, mode).value.after,
      at + StmtLen(s, completion.Some?))
  {
    hide CodeAt, IsOp, LowerExpr, LowerStmt, LoweredNo, BranchCode, IfCode, Join, JoinFlow, ExprLen, StmtLen, Abrupt;
    IfShape(s, at, b, base, loop, completion, mode);
    var c := LowerExpr(s.condition, b, base).value;
    var start := at + ExprLen(s.condition) + 1;
    var other := start + 2 + StmtLen(s.yes, true) + (if Abrupt(s.yes) then 0 else 1);
    var yes := LowerStmt(s.yes, start + 2, c.after, base + 1, loop, Some(base), mode).value;
    var no := LoweredNo(s, other + 2, c.after, base, loop, mode).value;
    IfStands(code, at, c.code, BranchCode(base, yes.code), Abrupt(s.yes), BranchCode(base, no.code));
  }

  /** What an `if` that is accepted is lowered to. */
  lemma {:induction false} IfShape(s: Stmt, at: nat, b: Bindings, base: nat, loop: Option<Loop>,
      completion: Option<nat>, mode: Head)
    requires s.If? && LowerStmt(s, at, b, base, loop, completion, mode).Some?
    ensures base + 1 <= LAST_REGISTER && LowerExpr(s.condition, b, base).Some?
    ensures var c := LowerExpr(s.condition, b, base).value;
      var start := at + ExprLen(s.condition) + 1;
      var other := start + 2 + StmtLen(s.yes, true) + (if Abrupt(s.yes) then 0 else 1);
      var yes := LowerStmt(s.yes, start + 2, c.after, base + 1, loop, Some(base), mode);
      var no := LoweredNo(s, other + 2, c.after, base, loop, mode);
      && yes.Some? && no.Some? && Join(yes.value, no.value).Some?
      && LowerStmt(s, at, b, base, loop, completion, mode).value
         == LoweredStmt(IfCode(c.code, BranchCode(base, yes.value.code), Abrupt(s.yes),
             BranchCode(base, no.value.code)), JoinFlow(yes.value.flow, no.value.flow),
             Join(yes.value, no.value).value)
  {
    hide LowerExpr, BranchCode, IfCode, Join, JoinFlow, ExprLen, StmtLen, Abrupt;
  }

  /** The other branch; without one, the value is undefined. */
  ghost function LoweredNo(s: Stmt, at: nat, b: Bindings, base: nat, loop: Option<Loop>, mode: Head)
    : (r: Option<LoweredStmt>)
    requires s.If?
  {
    if s.no.None? then Some(LoweredStmt([], FlowValue(TUndefined), b))
    else LowerStmt(s.no.value, at, b, base + 1, loop, Some(base), mode)
  }

  /** An `if` evaluates its condition and goes to a branch. */
  lemma IfEnters(ops: Operators, code: seq<Instr>, condition: Expr, b: Bindings, base: nat, floor: nat, env: Env,
      st: State, other: nat, loop: Option<Loop>)
    returns (regs: seq<Value>)
    requires Lawful(ops) && floor <= base && Match(b, env, st.regs, floor) && ExprBound(condition, env.Keys)
    requires LowerExpr(condition, b, base).Some? && CodeAt(code, st.pc, LowerExpr(condition, b, base).value.code)
    requires IsOp(code, st.pc + ExprLen(condition), JumpIfFalse(other - (st.pc + ExprLen(condition) + 1)))
    ensures var c := EvalExpr(ops, condition, env);
      && Match(LowerExpr(condition, b, base).value.after, c.env, regs, floor)
      && KeptBut(st.regs, regs, floor, base, loop)
      && Reaches(Machine(ops, code), st,
           State(if ops.truthy(c.value) then st.pc + ExprLen(condition) + 1 else other, c.value, regs))
  {
    hide Lawful, CodeAt, Machine, Reaches, Match, Kept, KeptBut, LowerExpr, EvalExpr, ExprLen;
    regs := ExprRuns(ops, code, condition, b, base, floor, env, st);
    var c := EvalExpr(ops, condition, env);
    var a := State(st.pc + ExprLen(condition), c.value, regs);
    Sized(LowerExpr(condition, b, base).value.after, c.env, regs, floor);
    StepIfFalse(ops, code, a, other);
    var d := a.(pc := if ops.truthy(c.value) then a.pc + 1 else other);
    One(ops, code, a, d);
    Then(Machine(ops, code), st, a, d);
    KeptIsKeptBut(st.regs, regs, floor, base, loop);
  }

  lemma {:induction false} IfRuns(ops: Operators, code: seq<Instr>, s: Stmt, b: Bindings, base: nat, floor: nat,
      loop: Option<Loop>, completion: Option<nat>, mode: Head, env: Env, st: State, fuel: nat)
    returns (regs: seq<Value>)
    requires StmtReady(ops, code, s, b, base, floor, loop, completion, mode, env, st) && s.If?
    ensures StmtDone(ops, code, s, b, base, floor, loop, completion, mode, env, st, fuel, regs)
    decreases fuel, s, 0, 1
  {
    hide Lawful, CodeAt, Machine, Reaches, Match, KeptBut, LowerStmt, LowerExpr, LoweredNo, BranchCode, Join, StmtLen,
        RunsFor,
      EvalExpr, ExprLen, ExprBound, Completes;
    IfLowers(code, s, st.pc, b, base, loop, completion, mode);
    var start := st.pc + ExprLen(s.condition) + 1;
    var other := start + 2 + StmtLen(s.yes, true) + (if Abrupt(s.yes) then 0 else 1);
    var between := IfEnters(ops, code, s.condition, b, base, floor, env, st, other, loop);
    var c := EvalExpr(ops, s.condition, env);
    var d := State(if ops.truthy(c.value) then start else other, c.value, between);
    var after, end := LowerStmt(s, st.pc, b, base, loop, completion, mode).value.after,
        st.pc + StmtLen(s, completion.Some?);
    if ops.truthy(c.value) {
      regs := YesRuns(ops, code, s, b, base, floor, loop, mode, c.env, st.pc, d, fuel, after, end);
    } else {
      regs := NoRuns(ops, code, s, b, base, floor, loop, mode, c.env, st.pc, d, fuel, after, end);
    }
    Branched(ops, code, st, d, end, after, base, floor, loop, EvalStmt(ops, s, env, fuel), fuel, regs);
  }

  /** The completion of an `if` is that of its branch. */
  lemma Branched(ops: Operators, code: seq<Instr>, st: State, d: State, end: nat, after: Bindings, base: nat,
      floor: nat, loop: Option<Loop>, r: Option<Completion>, fuel: nat, regs: seq<Value>)
    requires Reaches(Machine(ops, code), st, d) && KeptBut(st.regs, d.regs, floor, base, loop)
    requires Completes(ops, code, d, end, after, base, floor, loop, r, fuel, regs) && (r.Some? ==> r.value.value.Some?)
    ensures Completes(ops, code, st, end, after, base, floor, loop, r, fuel, regs)
  {
    hide Machine, Reaches, RunsFor, Match, KeptBut;
    Enter(ops, code, st, d, end, after, base, floor, loop, r, fuel, regs);
    if r.Some? {
      KeptButThen(st.regs, d.regs, regs, floor, base, base, loop);
    }
  }

  lemma Joined(yes: LoweredStmt, no: LoweredStmt, env: Env, regs: seq<Value>, floor: nat)
    requires Join(yes, no).Some?
    requires (!yes.flow.FlowAbrupt? && Match(yes.after, env, regs, floor))
      || (!no.flow.FlowAbrupt? && Match(no.after, env, regs, floor))
    ensures Match(Join(yes, no).value, env, regs, floor)
  {
    hide Match, MergeBindings;
    if !yes.flow.FlowAbrupt? && !no.flow.FlowAbrupt? {
      MatchMerge(yes.after, no.after, env, regs, floor);
    }
  }

  /** A branch that ends before a jump ends where the jump goes. */
  lemma JumpOn(ops: Operators, code: seq<Instr>, st: State, at: nat, end: nat, after: Bindings, base: nat, floor: nat,
      loop: Option<Loop>, r: Option<Completion>, fuel: nat, regs: seq<Value>)
    requires Completes(ops, code, st, at, after, base, floor, loop, r, fuel, regs)
    requires r.Some? && r.value.kind == Normal ==> IsOp(code, at, Jump(end - (at + 1)))
    ensures Completes(ops, code, st, end, after, base, floor, loop, r, fuel, regs)
  {
    hide Machine, Reaches, RunsFor, Match, KeptBut;
    if r.Some? && r.value.kind == Normal {
      Sized(after, r.value.env, regs, floor);
      var a := State(at, UpdateEmpty(r.value.value, st.acc), regs);
      StepJump(ops, code, a, end);
      One(ops, code, a, a.(pc := end));
      Then(Machine(ops, code), st, a, a.(pc := end));
    }
  }

  lemma YesRuns(ops: Operators, code: seq<Instr>, s: Stmt, b: Bindings, base: nat, floor: nat, loop: Option<Loop>,
      mode: Head, env: Env, at: nat, st: State, fuel: nat, after: Bindings, end: nat)
    returns (regs: seq<Value>)
    requires s.If? && LowerExpr(s.condition, b, base).Some? && IfLaid(code, s, at, b, base, loop, mode, after, end)
    requires Lawful(ops) && Framed(floor, base, loop, None) && base + 1 <= LAST_REGISTER && StmtBound(s.yes, env.Keys)
    requires st.pc == at + ExprLen(s.condition) + 1
    requires Match(LowerExpr(s.condition, b, base).value.after, env, st.regs, floor)
    ensures Completes(ops, code, st, end, after, base, floor, loop, Valuable(EvalStmt(ops, s.yes, env, fuel)), fuel,
        regs)
    decreases fuel, s, 0, 0
  {
    hide Lawful, CodeAt, Machine, Reaches, Match, KeptBut, LowerStmt, LowerExpr, LoweredNo, BranchCode, Join, StmtLen,
        RunsFor,
      EvalStmt, ExprLen;
    var c := LowerExpr(s.condition, b, base).value.after;
    var yes := LowerStmt(s.yes, st.pc + 2, c, base + 1, loop, Some(base), mode).value;
    var next := st.pc + 2 + StmtLen(s.yes, true);
    var r := EvalStmt(ops, s.yes, env, fuel);
    regs := BranchRuns(ops, code, s.yes, c, base, floor, loop, mode, env, st, fuel);
    NormalFits(ops, s.yes, env, fuel);
    JumpOn(ops, code, st, next, end, yes.after, base, floor, loop, Valuable(r), fuel, regs);
    if r.Some? && r.value.kind == Normal {
      Joined(yes, LoweredNo(s, next + 3, c, base, loop, mode).value, r.value.env, regs, floor);
    }
  }

  lemma NoRuns(ops: Operators, code: seq<Instr>, s: Stmt, b: Bindings, base: nat, floor: nat, loop: Option<Loop>,
      mode: Head, env: Env, at: nat, st: State, fuel: nat, after: Bindings, end: nat)
    returns (regs: seq<Value>)
    requires s.If? && LowerExpr(s.condition, b, base).Some? && IfLaid(code, s, at, b, base, loop, mode, after, end)
    requires Lawful(ops) && Framed(floor, base, loop, None) && base + 1 <= LAST_REGISTER
    requires s.no.Some? ==> StmtBound(s.no.value, env.Keys)
    requires st.pc == at + ExprLen(s.condition) + 1 + 2 + StmtLen(s.yes, true) + (if Abrupt(s.yes) then 0 else 1)
    requires Match(LowerExpr(s.condition, b, base).value.after, env, st.regs, floor)
    ensures Completes(ops, code, st, end, after, base, floor, loop,
      if s.no.Some? then Valuable(EvalStmt(ops, s.no.value, env, fuel))
          else Some(Completion(Normal, Some(Undefined), env)),
      fuel, regs)
    decreases fuel, s, 0, 0
  {
    hide Lawful, CodeAt, Machine, Reaches, Match, KeptBut, LowerStmt, LowerExpr, BranchCode, Join, StmtLen, RunsFor,
      EvalStmt, ExprLen;
    var c := LowerExpr(s.condition, b, base).value.after;
    var yes := LowerStmt(s.yes, at + ExprLen(s.condition) + 3, c, base + 1, loop, Some(base), mode).value;
    var no := LoweredNo(s, st.pc + 2, c, base, loop, mode).value;
    if s.no.Some? {
      var r := EvalStmt(ops, s.no.value, env, fuel);
      regs := BranchRuns(ops, code, s.no.value, c, base, floor, loop, mode, env, st, fuel);
      NormalFits(ops, s.no.value, env, fuel);
      if r.Some? && r.value.kind == Normal {
        Joined(yes, no, r.value.env, regs, floor);
      }
    } else {
      Sized(c, env, st.regs, floor);
      BranchStarts(ops, code, st, base, []);
      regs := st.regs[base := Undefined];
      MatchTemp(c, env, st.regs, floor, base, Undefined);
      KeptSelf(st.regs, floor, base, loop);
      KeptButTemp(st.regs, st.regs, floor, base, loop, base, Undefined);
      Joined(yes, no, env, regs, floor);
    }
  }

  // ---------- loops ----------

  /** A loop was lowered, from the types of one of the two attempts. */
  ghost predicate LoopLowered(s: Stmt, at: nat, b: Bindings, base: nat, head: Bindings, mode: Head)
    requires s.While? || s.DoWhile?
  {
    hide LowerStmt, LowerExpr, Fits;
    var c := LowerExpr(s.condition, head, base + 1);
    var body := LowerStmt(s.body, BodyAt(s, at), head, base + 1, Some(LoopOf(s, at, base, head)), None, mode);
    && base + 1 <= LAST_REGISTER && AllRise(b, head)
    && c.Some? && c.value.after == head && body.Some?
    && (!Abrupt(s.body) ==> Fits(body.value.after, head))
  }

  lemma OnceLowers(s: Stmt, at: nat, b: Bindings, base: nat, mode: Head)
    requires (s.While? || s.DoWhile?) && LowerLoopOnce(s, at, b, base, mode).Some?
    ensures var r, head := LowerLoopOnce(s, at, b, base, mode).value, FixedPoint(s.body, b, mode.Widened?);
      && r.after == head && LoopLowered(s, at, b, base, head, mode)
      && r.code == LoopCode(s, base, LowerExpr(s.condition, head, base + 1).value.code,
           LowerStmt(s.body, BodyAt(s, at), head, base + 1, Some(LoopOf(s, at, base, head)), None, mode).value.code)
  {
    hide LowerExpr, LowerStmt, Fits, FixedPoint, LoopCode, AllRise, BodyAt, LoopOf, LoopType;
    FixedPointHolds(s.body, b, mode.Widened?);
  }

  lemma LoopLowers(s: Stmt, at: nat, b: Bindings, base: nat, loop: Option<Loop>, completion: Option<nat>, mode: Head)
    returns (tried: Head)
    requires (s.While? || s.DoWhile?) && LowerStmt(s, at, b, base, loop, completion, mode).Some?
    ensures LowerLoopOnce(s, at, b, base, tried) == LowerStmt(s, at, b, base, loop, completion, mode)
  {
    hide LowerLoopOnce;
    tried := if LowerLoopOnce(s, at, b, base, mode).Some? then mode else Widened;
    assert LowerStmt(s, at, b, base, loop, completion, mode) == LowerLoop(s, at, b, base, mode);
  }

  lemma RisesIsBelow(b: Bindings, head: Bindings, env: Env, regs: seq<Value>, floor: nat)
    requires AllRise(b, head) && Match(b, env, regs, floor)
    ensures AllBelow(b, head)
  {
    hide Below, Inhabits;
    forall n | n in b ensures BindingBelow(b[n], head[n]) {
      assert Rises(b[n], head[n]) && Tracks(b[n], env[n]);
    }
  }

  /** Where the parts of a `while` stand that has its condition at `at`. */
  ghost predicate WhileLaid(code: seq<Instr>, at: nat, result: nat, condition: seq<Instr>, body: seq<Instr>,
      abrupt: bool) {
    var start := at + |condition| + 1;
    var back := start + 1 + |body| + (if abrupt then 0 else 1);
    && CodeAt(code, at, condition) && IsOp(code, start - 1, JumpIfFalse(back + 1 - start))
    && IsOp(code, start, Ldar(result)) && CodeAt(code, start + 1, body)
    && CodeAt(code, start + 1 + |body|, KeepCode(result, abrupt))
    && IsOp(code, back, Jump(at - (back + 1))) && IsOp(code, back + 1, Ldar(result))
  }

  lemma RoundStands(code: seq<Instr>, at: nat, result: nat, body: seq<Instr>, abrupt: bool)
    requires CodeAt(code, at, RoundCode(result, body, abrupt))
    ensures IsOp(code, at, Ldar(result)) && CodeAt(code, at + 1, body)
    ensures CodeAt(code, at + 1 + |body|, KeepCode(result, abrupt))
  {
    hide CodeAt, IsOp, KeepCode;
    FirstOp(code, at, Ldar(result), body + KeepCode(result, abrupt));
    Split(code, at + 1, body, KeepCode(result, abrupt));
  }

  lemma TestedStands(code: seq<Instr>, at: nat, result: nat, condition: seq<Instr>, round: seq<Instr>)
    requires CodeAt(code, at, TestedCode(result, condition, round))
    ensures CodeAt(code, at, condition) && IsOp(code, at + |condition|, JumpIfFalse(|round| + 1))
    ensures CodeAt(code, at + |condition| + 1, round)
    ensures IsOp(code, at + |condition| + 1 + |round|, Jump(-(|condition| + 1 + |round| + 1)))
    ensures IsOp(code, at + |condition| + 1 + |round| + 1, Ldar(result))
  {
    hide CodeAt, IsOp;
    var branch, jump, last := JumpIfFalse(|round| + 1), Jump(-(|condition| + 1 + |round| + 1)), [Ldar(result)];
    var start := at + |condition| + 1;
    Split(code, at, condition, [branch] + (round + ([jump] + last)));
    FirstOp(code, start - 1, branch, round + ([jump] + last));
    Split(code, start, round, [jump] + last);
    FirstOp(code, start + |round|, jump, last);
    LastOp(code, start + |round| + 1, Ldar(result));
  }

  lemma WhileStands(code: seq<Instr>, at: nat, result: nat, condition: seq<Instr>, body: seq<Instr>, abrupt: bool)
    requires CodeAt(code, at, WhileCode(result, condition, body, abrupt))
    ensures IsOp(code, at, Lda(Undefined)) && IsOp(code, at + 1, Star(result))
    ensures WhileLaid(code, at + 2, result, condition, body, abrupt)
  {
    hide CodeAt, KeepCode, RoundCode, TestedCode;
    var round := RoundCode(result, body, abrupt);
    FirstOp(code, at, Lda(Undefined), [Star(result)] + TestedCode(result, condition, round));
    FirstOp(code, at + 1, Star(result), TestedCode(result, condition, round));
    TestedStands(code, at + 2, result, condition, round);
    RoundStands(code, at + 2 + |condition| + 1, result, body, abrupt);
  }

  /** Where the parts of a `do-while` stand that has its round at `at`. */
  ghost predicate DoWhileLaid(code: seq<Instr>, at: nat, result: nat, body: seq<Instr>, abrupt: bool,
      condition: seq<Instr>) {
    var test := at + 1 + |body| + (if abrupt then 0 else 1);
    var end := test + |condition|;
    && IsOp(code, at, Ldar(result)) && CodeAt(code, at + 1, body)
    && CodeAt(code, at + 1 + |body|, KeepCode(result, abrupt))
    && CodeAt(code, test, condition) && IsOp(code, end, JumpIfTrue(at - (end + 1))) && IsOp(code, end + 1, Ldar(result))
  }

  lemma DoWhileStands(code: seq<Instr>, at: nat, result: nat, body: seq<Instr>, abrupt: bool, condition: seq<Instr>)
    requires CodeAt(code, at, DoWhileCode(result, body, abrupt, condition))
    ensures IsOp(code, at, Lda(Undefined)) && IsOp(code, at + 1, Star(result))
    ensures DoWhileLaid(code, at + 2, result, body, abrupt, condition)
  {
    hide CodeAt, IsOp, KeepCode, RoundCode;
    var round := RoundCode(result, body, abrupt);
    var jump, last := JumpIfTrue(-(|round| + |condition| + 1)), [Ldar(result)];
    var test := at + 2 + |round|;
    FirstOp(code, at, Lda(Undefined), [Star(result)] + (round + (condition + ([jump] + last))));
    FirstOp(code, at + 1, Star(result), round + (condition + ([jump] + last)));
    Split(code, at + 2, round, condition + ([jump] + last));
    RoundStands(code, at + 2, result, body, abrupt);
    Split(code, test, condition, [jump] + last);
    FirstOp(code, test + |condition|, jump, last);
    LastOp(code, test + |condition| + 1, Ldar(result));
  }

  /** A loop as its rounds see it. */
  ghost predicate Looping(ops: Operators, s: Stmt, at: nat, b: Bindings, base: nat, floor: nat, head: Bindings,
      mode: Head, env: Env) {
    && (s.While? || s.DoWhile?) && Lawful(ops) && floor <= base <= LAST_REGISTER && StmtBound(s, env.Keys)
    && LoopLowered(s, at, b, base, head, mode)
  }

  /** At a point of a loop the registers hold its bindings, of the types at its head, and its value. */
  ghost predicate AtPoint(head: Bindings, env: Env, base: nat, floor: nat, value: Value, st: State, pc: nat) {
    st.pc == pc && Match(head, env, st.regs, floor) && base < |st.regs| && st.regs[base] == value
  }

  /** A loop that is done fetches its value. */
  lemma LoopEnds(ops: Operators, code: seq<Instr>, head: Bindings, env: Env, base: nat, floor: nat, value: Value,
      a: State, st: State, loop: Option<Loop>, fuel: nat)
    requires Match(head, env, st.regs, floor) && base < |st.regs| && st.regs[base] == value && floor <= base
    requires Reaches(Machine(ops, code), a, st) && KeptBut(a.regs, st.regs, floor, base, loop)
    requires IsOp(code, st.pc, Ldar(base))
    ensures Completes(ops, code, a, st.pc + 1, head, base, floor, loop, Some(Completion(Normal, Some(value), env)),
        fuel, st.regs)
  {
    hide Machine, Reaches, Match, KeptBut;
    Sized(head, env, st.regs, floor);
    StepLdar(ops, code, st, base);
    var c := State(st.pc + 1, value, st.regs);
    One(ops, code, st, c);
    Then(Machine(ops, code), a, st, c);
  }

  /** A round's completion and what follows it, as one. */
  lemma RoundThen(ops: Operators, code: seq<Instr>, a: State, c: State, st: State, end: nat, head: Bindings,
      base: nat, floor: nat, loop: Option<Loop>, r: Option<Completion>, fuel: nat, regs: seq<Value>)
    requires Machine(ops, code)(a) == Some(c) && Reaches(Machine(ops, code), c, st)
    requires KeptBut(a.regs, st.regs, floor, base, loop) && (r.Some? ==> r.value.value.Some?)
    requires if fuel == 0 then r.None? else Completes(ops, code, st, end, head, base, floor, loop, r, fuel - 1, regs)
    ensures Completes(ops, code, a, end, head, base, floor, loop, r, fuel, regs)
  {
    hide Machine, Reaches, Match, KeptBut;
    var m := Machine(ops, code);
    if r.None? {
      if fuel > 0 {
        RunsOn(m, c, st, fuel - 1);
        RunsOne(m, a, c, fuel - 1);
      }
    } else {
      var last := State(Exit(r.value.kind, end, loop), r.value.value.value, regs);
      Then(m, c, st, last);
      First(m, a, c, last);
      KeptButThen(a.regs, st.regs, regs, floor, base, base, loop);
    }
  }

  /** A round: from the fetched value through the body. Past it the loop's value is kept again. */
  lemma {:induction false} BodyRuns(ops: Operators, code: seq<Instr>, s: Stmt, at: nat, b: Bindings, base: nat,
      floor: nat, head: Bindings, mode: Head, env: Env, st: State, fuel: nat)
    returns (regs: seq<Value>)
    requires Looping(ops, s, at, b, base, floor, head, mode, env) && Match(head, env, st.regs, floor)
    requires st.pc == BodyAt(s, at)
    requires CodeAt(code, st.pc,
      LowerStmt(s.body, st.pc, head, base + 1, Some(LoopOf(s, at, base, head)), None, mode).value.code)
    requires CodeAt(code, st.pc + StmtLen(s.body, false), KeepCode(base, Abrupt(s.body)))
    ensures var r := EvalStmt(ops, s.body, env, fuel);
      var loop := LoopOf(s, at, base, head);
      var end := st.pc + StmtLen(s.body, false) + (if Abrupt(s.body) then 0 else 1);
      if r.None? then RunsFor(Machine(ops, code), st, fuel)
      else
        var value := UpdateEmpty(r.value.value, st.acc);
        && Match(head, r.value.env, regs, floor) && |regs| == |st.regs| == REGISTERS && regs[base] == value
        && KeptBut(st.regs, regs, floor, base, None)
        && Reaches(Machine(ops, code), st, State(Exit(r.value.kind, end, Some(loop)), value, regs))
    decreases fuel, s.body, 2
  {
    hide Lawful, CodeAt, Machine, Reaches, Match, KeptBut, LowerStmt, LowerExpr, StmtLen, RunsFor, EvalStmt, Fits,
        KeepCode,
      LoopOf, BodyAt;
    var loop := Some(LoopOf(s, at, base, head));
    Sized(head, env, st.regs, floor);
    LoopResult(s, at, base, head);
    var between := StmtRuns(ops, code, s.body, head, base + 1, floor, loop, None, mode, env, st, fuel);
    regs := between;
    var r := EvalStmt(ops, s.body, env, fuel);
    if r.Some? {
      KeptInside(st.regs, between, floor, base, loop.value);
      if r.value.kind == Normal {
        NormalFits(ops, s.body, env, fuel);
        var after := LowerStmt(s.body, st.pc, head, base + 1, loop, None, mode).value.after;
        FitsIsOrder(after, head);
        MatchBelow(after, head, r.value.env, between, floor);
        var f := State(st.pc + StmtLen(s.body, false), UpdateEmpty(r.value.value, st.acc), between);
        Sized(head, r.value.env, between, floor);
        var a := KeepRuns(ops, code, f, base, false);
        MatchTemp(head, r.value.env, between, floor, base, f.acc);
        KeptButTemp(st.regs, between, floor, base, None, base, f.acc);
        Then(Machine(ops, code), st, f, a);
        regs := a.regs;
      }
    }
  }

  lemma LoopResult(s: Stmt, at: nat, base: nat, head: Bindings)
    requires s.While? || s.DoWhile?
    ensures LoopOf(s, at, base, head).result == base && LoopOf(s, at, base, head).head == head
  {
  }

  lemma KeptInside(x: seq<Value>, y: seq<Value>, floor: nat, base: nat, loop: Loop)
    requires KeptBut(x, y, floor, base + 1, Some(loop)) && loop.result == base
    ensures KeptBut(x, y, floor, base, None)
  {
  }

  /** The code of a loop stands. */
  ghost predicate LoopStands(code: seq<Instr>, s: Stmt, at: nat, b: Bindings, base: nat, head: Bindings, mode: Head)
    requires (s.While? || s.DoWhile?) && LoopLowered(s, at, b, base, head, mode)
  {
    hide LowerStmt, LowerExpr, Fits, AllRise;
    var c := LowerExpr(s.condition, head, base + 1).value.code;
    var body := LowerStmt(s.body, BodyAt(s, at), head, base + 1, Some(LoopOf(s, at, base, head)), None,
        mode).value.code;
    if s.While? then WhileLaid(code, at + 2, base, c, body, Abrupt(s.body))
    else DoWhileLaid(code, at + 2, base, body, Abrupt(s.body), c)
  }

  /** A `while`, from its condition on. */
  lemma {:induction false} WhileRuns(ops: Operators, code: seq<Instr>, s: Stmt, at: nat, b: Bindings, base: nat,
      floor: nat, head: Bindings, mode: Head, loop: Option<Loop>, env: Env, value: Value, st: State, fuel: nat)
    returns (regs: seq<Value>)
    requires s.While? && Looping(ops, s, at, b, base, floor, head, mode, env)
    requires LoopStands(code, s, at, b, base, head, mode) && AtPoint(head, env, base, floor, value, st, at + 2)
    ensures Completes(ops, code, st, at + StmtLen(s, false), head, base, floor, loop,
      EvalWhile(ops, s.condition, s.body, env, value, fuel), fuel, regs)
    decreases fuel, s.body, 4
  {
    hide Lawful, CodeAt, Machine, Reaches, Match, KeptBut, LowerStmt, LowerExpr, RunsFor, EvalExpr, EvalWhileBody,
        Fits, KeepCode,
      ExprLen, ExprBound, Completes, AllRise;
    var done := at + StmtLen(s, false) - 1;
    var start := at + 2 + ExprLen(s.condition) + 1;
    Sized(head, env, st.regs, floor);
    regs := IfEnters(ops, code, s.condition, head, base + 1, floor, env, st, done, None);
    KeptNarrow(st.regs, regs, floor, base + 1, None, base);
    KeptWiden(st.regs, regs, floor, base, loop);
    var c := EvalExpr(ops, s.condition, env);
    var a := State(if ops.truthy(c.value) then start else done, c.value, regs);
    if ops.truthy(c.value) {
      regs := WhileBodyRuns(ops, code, s, at, b, base, floor, head, mode, loop, c.env, value, a, fuel);
      Branched(ops, code, st, a, done + 1, head, base, floor, loop,
        EvalWhileBody(ops, s.condition, s.body, c.env, value, fuel), fuel, regs);
    } else {
      LoopEnds(ops, code, head, c.env, base, floor, value, st, a, loop, fuel);
    }
  }

  lemma KeptWiden(x: seq<Value>, y: seq<Value>, floor: nat, base: nat, loop: Option<Loop>)
    requires KeptBut(x, y, floor, base, None)
    ensures KeptBut(x, y, floor, base, loop)
  {
  }

  /** A `while`, from its body on. */
  lemma {:induction false} WhileBodyRuns(ops: Operators, code: seq<Instr>, s: Stmt, at: nat, b: Bindings, base: nat,
      floor: nat, head: Bindings, mode: Head, loop: Option<Loop>, env: Env, value: Value, st: State, fuel: nat)
    returns (regs: seq<Value>)
    requires s.While? && Looping(ops, s, at, b, base, floor, head, mode, env)
    requires LoopStands(code, s, at, b, base, head, mode)
    requires AtPoint(head, env, base, floor, value, st, at + 2 + ExprLen(s.condition) + 1)
    ensures Completes(ops, code, st, at + StmtLen(s, false), head, base, floor, loop,
      EvalWhileBody(ops, s.condition, s.body, env, value, fuel), fuel, regs)
    decreases fuel, s.body, 3
  {
    hide Lawful, CodeAt, Machine, Reaches, Match, KeptBut, LowerStmt, LowerExpr, RunsFor, EvalStmt, EvalWhile, Fits,
        KeepCode,
      ExprLen, ExprBound, AllRise;
    var m, done := Machine(ops, code), at + StmtLen(s, false) - 1;
    Sized(head, env, st.regs, floor);
    StepLdar(ops, code, st, base);
    var a := State(st.pc + 1, value, st.regs);
    regs := BodyRuns(ops, code, s, at, b, base, floor, head, mode, env, a, fuel);
    var r := EvalStmt(ops, s.body, env, fuel);
    if r.None? {
      One(ops, code, st, a);
      RunsOn(m, st, a, fuel);
    } else {
      KeptWiden(st.regs, regs, floor, base, loop);
      var next := UpdateEmpty(r.value.value, value);
      if r.value.kind == Breaks {
        var d := State(done, next, regs);
        First(m, st, a, d);
        LoopEnds(ops, code, head, r.value.env, base, floor, next, st, d, loop, fuel);
      } else {
        var d := State(at + 2, next, regs);
        if r.value.kind == Normal {
          var f := State(done - 1, next, regs);
          StepJump(ops, code, f, at + 2);
          One(ops, code, f, d);
          Then(m, a, f, d);
        }
        var final := regs;
        if fuel > 0 {
          final := WhileRuns(ops, code, s, at, b, base, floor, head, mode, loop, r.value.env, next, d, fuel - 1);
        }
        RoundThen(ops, code, st, a, d, done + 1, head, base, floor, loop,
          if fuel == 0 then None else EvalWhile(ops, s.condition, s.body, r.value.env, next, fuel - 1), fuel, final);
        regs := final;
      }
    }
  }

  /** A `do-while`, from its round on. */
  lemma {:induction false} DoWhileRuns(ops: Operators, code: seq<Instr>, s: Stmt, at: nat, b: Bindings, base: nat,
      floor: nat, head: Bindings, mode: Head, loop: Option<Loop>, env: Env, value: Value, st: State, fuel: nat)
    returns (regs: seq<Value>)
    requires s.DoWhile? && Looping(ops, s, at, b, base, floor, head, mode, env)
    requires LoopStands(code, s, at, b, base, head, mode) && AtPoint(head, env, base, floor, value, st, at + 2)
    ensures Completes(ops, code, st, at + StmtLen(s, false), head, base, floor, loop,
      EvalDoWhile(ops, s.body, s.condition, env, value, fuel), fuel, regs)
    decreases fuel, s.body, 4
  {
    hide Lawful, CodeAt, Machine, Reaches, Match, KeptBut, LowerStmt, LowerExpr, RunsFor, EvalStmt, EvalDoWhileTest,
        Fits,
      KeepCode, ExprLen, ExprBound, AllRise;
    var m, done := Machine(ops, code), at + StmtLen(s, false) - 1;
    Sized(head, env, st.regs, floor);
    StepLdar(ops, code, st, base);
    var a := State(st.pc + 1, value, st.regs);
    regs := BodyRuns(ops, code, s, at, b, base, floor, head, mode, env, a, fuel);
    var r := EvalStmt(ops, s.body, env, fuel);
    if r.None? {
      One(ops, code, st, a);
      RunsOn(m, st, a, fuel);
    } else {
      KeptWiden(st.regs, regs, floor, base, loop);
      var next := UpdateEmpty(r.value.value, value);
      if r.value.kind == Breaks {
        var d := State(done, next, regs);
        First(m, st, a, d);
        LoopEnds(ops, code, head, r.value.env, base, floor, next, st, d, loop, fuel);
      } else {
        var d := State(done - 1 - ExprLen(s.condition), next, regs);
        First(m, st, a, d);
        regs := DoWhileTestRuns(ops, code, s, at, b, base, floor, head, mode, loop, r.value.env, next, d, fuel);
        Branched(ops, code, st, d, done + 1, head, base, floor, loop,
          EvalDoWhileTest(ops, s.body, s.condition, r.value.env, next, fuel), fuel, regs);
      }
    }
  }

  /** A `do-while`, from its condition on. */
  lemma {:induction false} DoWhileTestRuns(ops: Operators, code: seq<Instr>, s: Stmt, at: nat, b: Bindings, base: nat,
      floor: nat, head: Bindings, mode: Head, loop: Option<Loop>, env: Env, value: Value, st: State, fuel: nat)
    returns (regs: seq<Value>)
    requires s.DoWhile? && Looping(ops, s, at, b, base, floor, head, mode, env)
    requires LoopStands(code, s, at, b, base, head, mode)
    requires AtPoint(head, env, base, floor, value, st, at + StmtLen(s, false) - 2 - ExprLen(s.condition))
    ensures Completes(ops, code, st, at + StmtLen(s, false), head, base, floor, loop,
      EvalDoWhileTest(ops, s.body, s.condition, env, value, fuel), fuel, regs)
    decreases fuel, s.body, 3
  {
    hide Lawful, CodeAt, Machine, Reaches, Match, Kept, KeptBut, LowerStmt, LowerExpr, RunsFor, EvalExpr, EvalDoWhile,
        Fits,
      KeepCode, ExprLen, ExprBound, AllRise;
    var m, done := Machine(ops, code), at + StmtLen(s, false) - 1;
    Sized(head, env, st.regs, floor);
    regs := ExprRuns(ops, code, s.condition, head, base + 1, floor, env, st);
    KeptIsKeptBut(st.regs, regs, floor, base + 1, None);
    KeptNarrow(st.regs, regs, floor, base + 1, None, base);
    KeptWiden(st.regs, regs, floor, base, loop);
    var c := EvalExpr(ops, s.condition, env);
    Sized(head, c.env, regs, floor);
    var a := State(done - 1, c.value, regs);
    StepIfTrue(ops, code, a, at + 2);
    var d := State(if ops.truthy(c.value) then at + 2 else done, c.value, regs);
    if ops.truthy(c.value) {
      if fuel > 0 {
        regs := DoWhileRuns(ops, code, s, at, b, base, floor, head, mode, loop, c.env, value, d, fuel - 1);
      }
      Here(m, d);
      KeptSelf(d.regs, floor, base, loop);
      RoundThen(ops, code, a, d, d, done + 1, head, base, floor, loop,
        EvalDoWhileTest(ops, s.body, s.condition, env, value, fuel), fuel, regs);
      Branched(ops, code, st, a, done + 1, head, base, floor, loop,
        EvalDoWhileTest(ops, s.body, s.condition, env, value, fuel), fuel, regs);
    } else {
      One(ops, code, a, d);
      Then(m, st, a, d);
      LoopEnds(ops, code, head, c.env, base, floor, value, st, d, loop, fuel);
    }
  }

  lemma LoopRuns(ops: Operators, code: seq<Instr>, s: Stmt, b: Bindings, base: nat, floor: nat, loop: Option<Loop>,
      completion: Option<nat>, mode: Head, env: Env, st: State, fuel: nat)
    returns (regs: seq<Value>)
    requires StmtReady(ops, code, s, b, base, floor, loop, completion, mode, env, st) && (s.While? || s.DoWhile?)
    ensures StmtDone(ops, code, s, b, base, floor, loop, completion, mode, env, st, fuel, regs)
    decreases fuel, s, 0
  {
    hide Lawful, CodeAt, Machine, Reaches, Match, KeptBut, LowerStmt, LowerLoopOnce, LowerExpr, LoopCode, FixedPoint,
        StmtLen,
      RunsFor, EvalWhile, EvalDoWhile, Completes, LoopStands, LoopLowered;
    var m := Machine(ops, code);
    Sized(b, env, st.regs, floor);
    var tried := LoopLowers(s, st.pc, b, base, loop, completion, mode);
    OnceLowers(s, st.pc, b, base, tried);
    var head := FixedPoint(s.body, b, tried.Widened?);
    LoopCodeStands(code, s, st.pc, b, base, head, tried);
    var a := LoopStarts(ops, code, s, b, base, floor, head, tried, env, st);
    if s.While? {
      regs := WhileRuns(ops, code, s, st.pc, b, base, floor, head, tried, loop, env, Undefined, a, fuel);
    } else {
      regs := DoWhileRuns(ops, code, s, st.pc, b, base, floor, head, tried, loop, env, Undefined, a, fuel);
    }
    KeptSelf(st.regs, floor, base, loop);
    KeptButTemp(st.regs, st.regs, floor, base, loop, base, Undefined);
    LoopLen(s, completion.Some?);
    Branched(ops, code, st, a, st.pc + StmtLen(s, false), head, base, floor, loop, EvalStmt(ops, s, env, fuel), fuel,
        regs);
  }

  lemma LoopLen(s: Stmt, inner: bool)
    requires s.While? || s.DoWhile?
    ensures StmtLen(s, inner) == StmtLen(s, false)
  {
  }

  lemma LoopCodeStands(code: seq<Instr>, s: Stmt, at: nat, b: Bindings, base: nat, head: Bindings, mode: Head)
    requires (s.While? || s.DoWhile?) && LoopLowered(s, at, b, base, head, mode)
    requires CodeAt(code, at, LoopCode(s, base, LowerExpr(s.condition, head, base + 1).value.code,
      LowerStmt(s.body, BodyAt(s, at), head, base + 1, Some(LoopOf(s, at, base, head)), None, mode).value.code))
    ensures LoopStands(code, s, at, b, base, head, mode)
    ensures IsOp(code, at, Lda(Undefined)) && IsOp(code, at + 1, Star(base))
  {
    hide CodeAt, LowerStmt, LowerExpr, WhileCode, DoWhileCode, WhileLaid, DoWhileLaid, Fits, AllRise, IsOp;
    var c := LowerExpr(s.condition, head, base + 1).value.code;
    var body := LowerStmt(s.body, BodyAt(s, at), head, base + 1, Some(LoopOf(s, at, base, head)), None,
        mode).value.code;
    if s.While? {
      WhileStands(code, at, base, c, body, Abrupt(s.body));
    } else {
      DoWhileStands(code, at, base, body, Abrupt(s.body), c);
    }
  }

  /** A loop's value starts as undefined; the bindings it starts from fit its head. */
  lemma LoopStarts(ops: Operators, code: seq<Instr>, s: Stmt, b: Bindings, base: nat, floor: nat, head: Bindings,
      mode: Head, env: Env, st: State)
    returns (a: State)
    requires s.While? || s.DoWhile?
    requires Match(b, env, st.regs, floor) && LoopLowered(s, st.pc, b, base, head, mode) && floor <= base
    requires IsOp(code, st.pc, Lda(Undefined)) && IsOp(code, st.pc + 1, Star(base))
    ensures a == State(st.pc + 2, Undefined, st.regs[base := Undefined]) && Reaches(Machine(ops, code), st, a)
    ensures AtPoint(head, env, base, floor, Undefined, a, st.pc + 2)
  {
    hide Machine, Reaches, Match, LowerStmt, LowerExpr, Fits, AllRise;
    Sized(b, env, st.regs, floor);
    StepLda(ops, code, st, Undefined);
    var c := st.(pc := st.pc + 1, acc := Undefined);
    StepStar(ops, code, c, base);
    a := State(st.pc + 2, Undefined, st.regs[base := Undefined]);
    One(ops, code, c, a);
    First(Machine(ops, code), st, c, a);
    RisesIsBelow(b, head, env, st.regs, floor);
    MatchBelow(b, head, env, st.regs, floor);
    MatchTemp(head, env, st.regs, floor, base, Undefined);
  }
}
