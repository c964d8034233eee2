/** The two backends answer a script identically. */
module BackendAgreement {
  import opened Wrappers
  import opened Source
  import opened Machines
  import opened CodeLayout
  import opened RegisterTypes
  import opened RegisterMachine
  import opened RegisterExpressions
  import opened ScriptLowering
  import opened RegisterScripts
  import opened BindingPlaces
  import StackBackend

  /** A machine comes to a state it takes no step from. */
  ghost predicate Halts<S>(step: S -> Option<S>, a: S, b: S) {
    Reaches(step, a, b) && step(b) == None
  }

  lemma {:induction false} StepsEnd<S>(step: S -> Option<S>, a: S, b: S, m: nat, n: nat)
    requires Steps(step, a, m) == Some(b) && step(b) == None && m < n
    ensures Steps(step, a, n) == None
  {
    if m > 0 {
      StepsEnd(step, step(a).value, b, m - 1, n - 1);
    }
  }

  /** There is only one such state. */
  lemma HaltsOnce<S>(step: S -> Option<S>, a: S, b: S, c: S)
    requires Halts(step, a, b) && Halts(step, a, c)
    ensures b == c
  {
    var m: nat :| Steps(step, a, m) == Some(b);
    var n: nat :| Steps(step, a, n) == Some(c);
    if m < n {
      StepsEnd(step, a, b, m, n);
    } else if n < m {
      StepsEnd(step, a, c, n, m);
    }
  }

  /** A script as both backends have it: compiled, lowered, and the same bindings held by both. */
  datatype Script = Script(program: seq<Stmt>, stack: seq<StackBackend.Op>, scope: StackBackend.Scope,
                           registers: seq<Instr>, bindings: Bindings, base: nat)

  ghost predicate Compiled(ops: Operators, script: Script, env: Env, s: StackBackend.State, t: State) {
    && Lawful(ops) && ListBound(script.program, env.Keys)
    && StackBackend.Holds(script.scope, env, s.slots) && env.Keys == script.scope.Keys
    && s.stack == [] && s.result == Undefined
    && CodeAt(script.stack, s.pc, StackBackend.ListCode(script.program, s.pc, script.scope, 0, 0))
    && |script.stack| == s.pc + StackBackend.ListLen(script.program)
    && Match(script.bindings, env, t.regs, script.base)
    && LowerScript(script.program, t.pc, script.bindings, script.base).Some?
    && CodeAt(script.registers, t.pc, LowerScript(script.program, t.pc, script.bindings, script.base).value)
  }

  /** Both halted: the stack machine past its code, the register machine at its return, with the
      value and the bindings the source means. */
  ghost predicate Answers(ops: Operators, script: Script, r: Completion, s: StackBackend.State, t: State) {
    && s.pc == |script.stack| && s.stack == [] && s.result == UpdateEmpty(r.value, Undefined)
    && StackBackend.Holds(script.scope, r.env, s.slots)
    && IsOp(script.registers, t.pc, Return) && t.acc == UpdateEmpty(r.value, Undefined)
    && r.env.Keys == script.bindings.Keys && |t.regs| == REGISTERS
    && forall x | x in script.bindings ::
         script.bindings[x].register < REGISTERS && t.regs[script.bindings[x].register] == r.env[x]
  }

  /** Each backend does what the source means: with a completion both halt with it, and as long as
      there is none both go on. */
  lemma BothFollow(ops: Operators, script: Script, env: Env, s: StackBackend.State, t: State, fuel: nat)
    returns (s': StackBackend.State, t': State)
    requires Compiled(ops, script, env, s, t)
    ensures var r := EvalList(ops, script.program, env, fuel);
      && (r.None? ==> RunsFor(StackBackend.Machine(ops, script.stack), s, fuel)
                      && RunsFor(Machine(ops, script.registers), t, fuel))
      && (r.Some? ==> Halts(StackBackend.Machine(ops, script.stack), s, s')
                      && Halts(Machine(ops, script.registers), t, t') && Answers(ops, script, r.value, s', t'))
  {
    hide Lawful, CodeAt, StackBackend.Holds, StackBackend.ListCode, StackBackend.ListLen, Match, Reaches, EvalList,
        LowerScript,
      LowerBody;
    var r := EvalList(ops, script.program, env, fuel);
    var slots := StackBackend.ListRuns(ops, script.stack, script.program, script.scope, env, s, 0, 0, fuel);
    t' := ScriptRuns(ops, script.registers, script.program, script.bindings, script.base, env, t, fuel);
    s' := s;
    if r.Some? {
      s' := StackBackend.State(|script.stack|, [], slots, UpdateEmpty(r.value.value, Undefined));
      assert StackBackend.Machine(ops, script.stack)(s') == None;
      assert Machine(ops, script.registers)(t') == None;
      var after := LowerBody(script.program, t.pc + 2, script.bindings, script.base + 1, script.base).value.after;
      BodyPlaces(script.program, t.pc + 2, script.bindings, script.base + 1, script.base);
      RegistersHold(script.bindings, after, r.value.env, t'.regs, script.base);
    }
  }

  lemma RegistersHold(b: Bindings, after: Bindings, env: Env, regs: seq<Value>, floor: nat)
    requires SamePlaces(b, after) && Match(after, env, regs, floor)
    ensures env.Keys == b.Keys && |regs| == REGISTERS
    ensures forall x | x in b :: b[x].register < REGISTERS && regs[b[x].register] == env[x]
  {
  }

  /** Both came to their end, with the same value and every binding the same; one that had no type and
      is still not initialized has no value to compare. */
  ghost predicate Same(script: Script, s: StackBackend.State, t: State) {
    && s.pc == |script.stack| && IsOp(script.registers, t.pc, Return)
    && s.result == t.acc && |t.regs| == REGISTERS && script.scope.Keys == script.bindings.Keys
    && forall x | x in script.bindings ::
         && script.scope[x] < |s.slots| && script.bindings[x].register < REGISTERS
         && (|| s.slots[script.scope[x]] == Some(t.regs[script.bindings[x].register])
             || (s.slots[script.scope[x]].None? && script.bindings[x].ty.None?))
  }

  lemma AnswersSame(ops: Operators, script: Script, r: Completion, s: StackBackend.State, t: State)
    requires Answers(ops, script, r, s, t)
    ensures Same(script, s, t)
  {
  }

  /** Where one backend halts the other halts with the same value and the same bindings; so where one
      goes on forever the other does. */
  ghost predicate Agree(ops: Operators, script: Script, s: StackBackend.State, t: State) {
    && (forall s' | Halts(StackBackend.Machine(ops, script.stack), s, s') ::
          exists t' :: Halts(Machine(ops, script.registers), t, t') && Same(script, s', t'))
    && (forall t' | Halts(Machine(ops, script.registers), t, t') ::
          exists s' :: Halts(StackBackend.Machine(ops, script.stack), s, s') && Same(script, s', t'))
  }

  lemma BackendsAgree(ops: Operators, script: Script, env: Env, s: StackBackend.State, t: State)
    requires Compiled(ops, script, env, s, t)
    ensures Agree(ops, script, s, t)
  {
    hide CodeAt, LowerScript, StackBackend.ListCode, Match, StackBackend.Holds, Lawful, Answers, Reaches, EvalList,
      StackBackend.Machine, Machine, Same;
    var x, y := StackBackend.Machine(ops, script.stack), Machine(ops, script.registers);
    forall s' | Halts(x, s, s') ensures exists t' :: Halts(y, t, t') && Same(script, s', t') {
      var n := HaltsWithin(x, s, s');
      var s1, t1 := BothFollow(ops, script, env, s, t, n);
      HaltsOnce(x, s, s', s1);
      AnswersSame(ops, script, EvalList(ops, script.program, env, n).value, s1, t1);
    }
    forall t' | Halts(y, t, t') ensures exists s' :: Halts(x, s, s') && Same(script, s', t') {
      var n := HaltsWithin(y, t, t');
      var s1, t1 := BothFollow(ops, script, env, s, t, n);
      HaltsOnce(y, t, t', t1);
      AnswersSame(ops, script, EvalList(ops, script.program, env, n).value, s1, t1);
    }
  }

  function PlainApply(op: Binary, l: Value, r: Value): (v: Value)
    ensures IsArithmetic(op) || IsBitwise(op) ==> v.Number?
    ensures IsComparison(op) || op.Eq? || op.StrictEq? ==> v.Boolean?
    ensures op.Add? ==> if l.String? && r.String? then v.String? else v.Number?
    ensures op.Ne? ==> v == Boolean(PlainApply(Eq, l, r) == Boolean(false))
    ensures op.StrictNe? ==> v == Boolean(PlainApply(StrictEq, l, r) == Boolean(false))
    decreases op.Ne? || op.StrictNe?
  {
    if op.Add? && l.String? && r.String? then String(l.units + r.units)
    else if IsComparison(op) || op.Eq? || op.StrictEq? then Boolean(l == r)
    else if op.Ne? then Boolean(PlainApply(Eq, l, r) == Boolean(false))
    else if op.StrictNe? then Boolean(PlainApply(StrictEq, l, r) == Boolean(false))
    else Number(0)
  }

  predicate PlainTruthy(v: Value) {
    v != Boolean(false) && !v.Undefined? && !v.Null?
  }

  /** There are operators that keep the laws. */
  lemma LawsCanHold()
    ensures Lawful(Operators(PlainApply, PlainTruthy)) && PlainTruthy(Boolean(true))
  {
    hide PlainApply;
    var ops := Operators(PlainApply, PlainTruthy);
    assert forall op, l, r :: ops.apply(op, l, r) == PlainApply(op, l, r);
    assert forall v :: ops.truthy(v) == PlainTruthy(v);
  }

  /** A machine that halts takes only so many steps. */
  lemma HaltsWithin<S>(step: S -> Option<S>, a: S, b: S) returns (n: nat)
    requires Halts(step, a, b)
    ensures !RunsFor(step, a, n)
  {
    var m: nat :| Steps(step, a, m) == Some(b);
    n := m + 1;
    StepsEnd(step, a, b, m, n);
  }
}
