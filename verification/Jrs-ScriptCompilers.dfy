/** A script through both compilers. */
module ScriptCompilers {

  import opened Wrappers
  import opened Source
  import opened CodeLayout
  import opened RegisterTypes
  import opened RegisterMachine
  import opened ExpressionLowering
  import opened StatementLowering
  import opened ScriptLowering
  import opened OpenJumps
  import opened RegisterLowering
  import opened RegisterExpressions
  import opened BackendAgreement
  import StackBackend
  import Patching
  import StackCompiler

  /** The stack code of a script. */
  method Compile(program: seq<Stmt>, scope: StackBackend.Scope, limit: nat)
    returns (r: Result<seq<StackBackend.Op>, StackCompiler.Error>)
    requires ListBound(program, scope.Keys)
    ensures r.Ok? <==> (&& StackBackend.ListLen(program) <= limit
                        && Patching.ListBreaks(program, 0) == [] && Patching.ListContinues(program, 0) == [])
    ensures r.Ok? ==> r.value == StackBackend.ListCode(program, 0, scope, 0, 0)
  {
    var compiler := new StackCompiler.Compiler(scope, limit);
    var _ :- compiler.Statements(program);
    assert [] + compiler.code == compiler.code;
    return Ok(compiler.code);
  }

  /** The register code of a script: its value starts as undefined, every statement starts from it, and it is
      returned. */
  method LowerRegisterScript(program: seq<Stmt>, b: Bindings, base: nat) returns (r: Option<seq<Instr>>)
    requires base <= LAST_REGISTER
    ensures r == RegisterScript(program, b, base)
  {
    hide LowerStmt, LowerBody, BodyType, LowerRest, Merge, IsReturnable;
    if forall i | 0 <= i < |program| :: program[i].Empty? {
      return None;
    }
    var lowerer := new Lowerer(b, base);
    var result :- lowerer.Allocate();
    var _ := lowerer.Emit(Lda(Undefined));
    var _ := lowerer.Emit(Star(result));
    ghost var spec: seq<Instr> := [];
    ghost var front := lowerer.code;
    BodyStarts(program, b, base);
    assert front + [] == front;
    var i := 0;
    var abrupt, ty := false, TUndefined;
    while i < |program| && !abrupt
      invariant 0 <= i <= |program| && fresh(lowerer) && Outside(lowerer) && lowerer.next == base + 1
      invariant lowerer.code == front + spec
      invariant LowerBody(program, 2, b, base + 1, base)
                == LowerRest(spec, program[i..], |lowerer.code|, lowerer.bindings, base + 1, base, abrupt)
      invariant BodyType(program, 2, b, base + 1, base, TUndefined)
                == if abrupt then ty else BodyType(program[i..], |lowerer.code|, lowerer.bindings, base + 1, base, ty)
      decreases |program| - i, !abrupt
    {
      BodyStep(program, i, |lowerer.code|, lowerer.bindings, base + 1, base, spec, ty);
      ghost var first := LowerStmt(program[i], |lowerer.code| + 1, lowerer.bindings, base + 1, None, None, Declared);
      var flow :- LowerOne(lowerer, program[i], result);
      ghost var more := OneCode(result, first.value);
      Regroup3(front, spec, more);
      spec := spec + more;
      if flow.FlowAbrupt? {
        abrupt := true;
      } else {
        if flow.FlowValue? {
          ty := flow.ty;
        }
        i := i + 1;
      }
    }
    BodyEnds(program, i, |lowerer.code|, lowerer.bindings, base + 1, base, spec, abrupt, ty);
    if !IsReturnable(ty) {
      return None;
    }
    var _ := lowerer.Emit(Ldar(result));
    var _ := lowerer.Emit(Return);
    ScriptLaid(result, spec);
    return Some(lowerer.code);
  }

  /** Between the statements of a script, outside every loop, block and branch. */
  ghost predicate Outside(lowerer: Lowerer)
    reads lowerer
  {
    lowerer.Valid() && lowerer.loops == [] && lowerer.completions == [] && lowerer.mode == Declared
  }

  /** One statement of a script: it starts from the value so far, and one that has a value leaves it there. */
  function OneCode(result: nat, first: LoweredStmt): (code: seq<Instr>) {
    [Ldar(result)] + first.code + (if first.flow.FlowAbrupt? then [] else KeepCode(result, !first.flow.FlowValue?))
  }

  method LowerOne(lowerer: Lowerer, s: Stmt, result: nat) returns (flow: Option<Flow>)
    requires Outside(lowerer)
    modifies lowerer
    ensures var first := LowerStmt(s, |old(lowerer.code)| + 1, old(lowerer.bindings), old(lowerer.next), None, None,
                                   Declared);
            && (first.None? <==> flow.None?)
            && (first.Some? ==>
                && Outside(lowerer) && lowerer.next == old(lowerer.next)
                && flow == Some(first.value.flow) && lowerer.bindings == first.value.after
                && lowerer.code == old(lowerer.code) + OneCode(result, first.value))
  {
    hide LowerStmt, Opened, Noted;
    ghost var start, at := lowerer.code, |lowerer.code| + 1;
    ghost var first := LowerStmt(s, at, lowerer.bindings, lowerer.next, None, None, Declared);
    var _ := lowerer.Emit(Ldar(result));
    ghost var before := lowerer.code;
    ghost var breaks, continues;
    flow, breaks, continues := lowerer.LowerStatement(s, None);
    if flow.None? {
      return None;
    }
    OpenedNone(lowerer.code[|before|..], first.value.code, |before|);
    assert lowerer.code == before + first.value.code;
    if flow.value.FlowValue? {
      var _ := lowerer.Emit(Star(result));
    } else {
      assert lowerer.code + [] == lowerer.code;
    }
    OneLaid(start, [Ldar(result)], first.value.code,
      if flow.value.FlowAbrupt? then [] else KeepCode(result, !flow.value.FlowValue?));
  }

  /** What the two compilers emit for a script answers alike from its start. */
  lemma {:induction false} EmittedCodeAgrees(ops: Operators, script: Script, env: Env, s: StackBackend.State, t: State)
    requires Lawful(ops) && ListBound(script.program, env.Keys) && env.Keys == script.scope.Keys
    requires script.stack == StackBackend.ListCode(script.program, 0, script.scope, 0, 0)
    requires LowerScript(script.program, 0, script.bindings, script.base) == Some(script.registers)
    requires s.pc == 0 && s.stack == [] && s.result == Undefined && StackBackend.Holds(script.scope, env, s.slots)
    requires t.pc == 0 && Match(script.bindings, env, t.regs, script.base)
    ensures Agree(ops, script, s, t)
  {
    hide Lawful, StackBackend.Holds, StackBackend.ListCode, Match, LowerScript, Agree;
    assert script.stack[0..|script.stack|] == script.stack;
    assert script.registers[0..|script.registers|] == script.registers;
    BackendsAgree(ops, script, env, s, t);
  }

  /** The statements of a script, the first of which have been lowered. */
  ghost function LowerRest(spec: seq<Instr>, program: seq<Stmt>, at: nat, b: Bindings, base: nat, result: nat,
      abrupt: bool)
    : (r: Option<LoweredStmt>) {
    var rest := LowerBody(program, at, b, base, result);
    if abrupt then Some(LoweredStmt(spec, FlowAbrupt, b))
    else if rest.None? then None
    else Some(rest.value.(code := spec + rest.value.code))
  }

  lemma {:induction false} BodyStarts(program: seq<Stmt>, b: Bindings, base: nat)
    ensures LowerBody(program, 2, b, base + 1, base) == LowerRest([], program[0..], 2, b, base + 1, base, false)
    ensures program[0..] == program
  {
    hide LowerBody;
    assert program[0..] == program;
    var r := LowerBody(program, 2, b, base + 1, base);
    if r.Some? {
      assert [] + r.value.code == r.value.code;
    }
  }

  lemma {:induction false} BodyStep(program: seq<Stmt>, i: nat, at: nat, b: Bindings, base: nat, result: nat,
      spec: seq<Instr>, ty: RegType)
    requires i < |program|
    ensures var first := LowerStmt(program[i], at + 1, b, base, None, None, Declared);
            var whole := LowerRest(spec, program[i..], at, b, base, result, false);
            var kind := BodyType(program[i..], at, b, base, result, ty);
            if first.None? then whole == None
            else
              var done := spec + OneCode(result, first.value);
              var end := at + |OneCode(result, first.value)|;
              if first.value.flow.FlowAbrupt? then
                && whole == LowerRest(done, program[i..], end, first.value.after, base, result, true)
                && kind == ty
              else
                && whole == LowerRest(done, program[i + 1..], end, first.value.after, base, result, false)
                && kind == BodyType(program[i + 1..], end, first.value.after, base, result,
                     if first.value.flow.FlowValue? then first.value.flow.ty else ty)
  {
    hide LowerStmt, KeepCode;
    assert program[i..][0] == program[i] && program[i..][1..] == program[i + 1..];
    BodyShape(program[i..], at, b, base, result);
    TypeShape(program[i..], at, b, base, result, ty);
    hide LowerBody, BodyType;
    var first := LowerStmt(program[i], at + 1, b, base, None, None, Declared);
    if first.Some? {
      var keep := KeepCode(result, !first.value.flow.FlowValue?);
      Regroup3(spec, [Ldar(result)], first.value.code);
      assert [Ldar(result)] + first.value.code + [] == [Ldar(result)] + first.value.code;
      if !first.value.flow.FlowAbrupt? {
        var rest := LowerBody(program[i + 1..], at + 1 + |first.value.code| + |keep|, first.value.after, base, result);
        if rest.Some? {
          StepLaid(spec, result, first.value.code, keep, rest.value.code);
        }
      }
    }
  }

  lemma {:induction false} OneLaid(a: seq<Instr>, b: seq<Instr>, c: seq<Instr>, d: seq<Instr>)
    ensures a + b + c + d == a + (b + c + d)
  {
  }

  lemma {:induction false} StepLaid(spec: seq<Instr>, result: nat, first: seq<Instr>, keep: seq<Instr>,
      rest: seq<Instr>)
    ensures spec + ([Ldar(result)] + (first + (keep + rest))) == spec + ([Ldar(result)] + first + keep) + rest
  {
  }

  lemma {:induction false} BodyShape(program: seq<Stmt>, at: nat, b: Bindings, base: nat, result: nat)
    requires program != []
    ensures var first := LowerStmt(program[0], at + 1, b, base, None, None, Declared);
            LowerBody(program, at, b, base, result)
            == if first.None? then None
               else if first.value.flow.FlowAbrupt? then Some(first.value.(code := [Ldar(result)] + first.value.code))
               else var keep := KeepCode(result, !first.value.flow.FlowValue?);
                    var rest := LowerBody(program[1..], at + 1 + |first.value.code| + |keep|, first.value.after, base,
                        result);
                    if rest.None? then None
                    else Some(LoweredStmt([Ldar(result)] + (first.value.code + (keep + rest.value.code)),
                        rest.value.flow, rest.value.after))
  {
    hide LowerStmt, KeepCode;
  }

  lemma {:induction false} TypeShape(program: seq<Stmt>, at: nat, b: Bindings, base: nat, result: nat, ty: RegType)
    requires program != []
    ensures var first := LowerStmt(program[0], at + 1, b, base, None, None, Declared);
            BodyType(program, at, b, base, result, ty)
            == if first.None? || first.value.flow.FlowAbrupt? then ty
               else var keep := KeepCode(result, !first.value.flow.FlowValue?);
                    BodyType(program[1..], at + 1 + |first.value.code| + |keep|, first.value.after, base, result,
                      if first.value.flow.FlowValue? then first.value.flow.ty else ty)
  {
    hide LowerStmt, KeepCode;
  }

  lemma {:induction false} BodyEnds(program: seq<Stmt>, i: nat, at: nat, b: Bindings, base: nat, result: nat,
      spec: seq<Instr>, abrupt: bool, ty: RegType)
    requires i <= |program| && (i == |program| || abrupt)
    ensures var r := LowerRest(spec, program[i..], at, b, base, result, abrupt);
            r.Some? && r.value.code == spec
    ensures !abrupt ==> BodyType(program[i..], at, b, base, result, ty) == ty
  {
    if !abrupt {
      assert program[i..] == [];
      assert spec + [] == spec;
    }
  }

  lemma {:induction false} ScriptLaid(base: nat, body: seq<Instr>)
    ensures [] + [Lda(Undefined)] + [Star(base)] + body + [Ldar(base)] + [Return]
            == [Lda(Undefined)] + ([Star(base)] + (body + ([Ldar(base)] + [Return])))
  {
  }

  lemma OpenedNone(a: seq<Instr>, b: seq<Instr>, at: nat)
    requires Opened(a, b, at, [], [], 0, 0)
    ensures a == b
  {
  }
}
