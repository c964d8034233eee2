/** The lowering of whole scripts. */
module ScriptLowering {
  import opened Wrappers
  import opened Source
  import opened RegisterTypes
  import opened RegisterMachine
  import opened ExpressionLowering
  import opened StatementLowering

  /** The statements of a script; the value so far is in the register `result`. */
  ghost function LowerBody(program: seq<Stmt>, at: nat, b: Bindings, base: nat, result: nat): (r: Option<LoweredStmt>)
    decreases program
  {
    if program == [] then Some(LoweredStmt([], FlowEmpty, b))
    else
      var first := LowerStmt(program[0], at + 1, b, base, None, None, Declared);
      if first.None? then None
      else if first.value.flow.FlowAbrupt? then Some(first.value.(code := [Ldar(result)] + first.value.code))
      else
        var keep := KeepCode(result, !first.value.flow.FlowValue?);
        var rest := LowerBody(program[1..], at + 1 + |first.value.code| + |keep|, first.value.after, base, result);
        if rest.None? then None else
        Some(LoweredStmt([Ldar(result)] + (first.value.code + (keep + rest.value.code)), rest.value.flow,
            rest.value.after))
  }

  /** A script that starts at `at`: its value starts as undefined and is returned. */
  ghost function LowerScript(program: seq<Stmt>, at: nat, b: Bindings, base: nat): (code: Option<seq<Instr>>) {
    if base + 1 > LAST_REGISTER then None else
    var body := LowerBody(program, at + 2, b, base + 1, base);
    if body.None? then None else
    Some([Lda(Undefined)] + ([Star(base)] + (body.value.code + ([Ldar(base)] + [Return]))))
  }

  /** The type of the value of a script, as the lowering tracks it. */
  ghost function BodyType(program: seq<Stmt>, at: nat, b: Bindings, base: nat, result: nat, ty: RegType): (t: RegType)
    decreases program
  {
    if program == [] then ty
    else
      var first := LowerStmt(program[0], at + 1, b, base, None, None, Declared);
      if first.None? || first.value.flow.FlowAbrupt? then ty
      else
        var keep := KeepCode(result, !first.value.flow.FlowValue?);
        BodyType(program[1..], at + 1 + |first.value.code| + |keep|, first.value.after, base, result,
          if first.value.flow.FlowValue? then first.value.flow.ty else ty)
  }

  /** A script with nothing but empty statements is not worth lowering. */
  predicate Idle(program: seq<Stmt>) {
    forall i | 0 <= i < |program| :: program[i].Empty?
  }

  /** What the register compiler answers for a script. */
  ghost function RegisterScript(program: seq<Stmt>, b: Bindings, base: nat): (code: Option<seq<Instr>>)
    ensures code.Some? ==> code == LowerScript(program, 0, b, base)
  {
    if Idle(program) || !IsReturnable(BodyType(program, 2, b, base + 1, base, TUndefined)) then None
    else LowerScript(program, 0, b, base)
  }
}
