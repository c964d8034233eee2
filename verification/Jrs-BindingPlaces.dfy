/** No statement moves a binding to another register. */
module BindingPlaces {
  import opened Wrappers
  import opened Source
  import opened RegisterTypes
  import opened TypeInference
  import opened ExpressionLowering
  import opened RegisterExpressions
  import opened StatementLowering
  import opened RegisterStatements
  import opened ScriptLowering

  ghost predicate SamePlaces(x: Bindings, y: Bindings) {
    x.Keys == y.Keys && forall n | n in x :: x[n].register == y[n].register
  }

  lemma {:induction false} StmtPlaces(s: Stmt, at: nat, b: Bindings, base: nat, loop: Option<Loop>,
      completion: Option<nat>, mode: Head)
    requires LowerStmt(s, at, b, base, loop, completion, mode).Some?
    ensures SamePlaces(b, LowerStmt(s, at, b, base, loop, completion, mode).value.after)
    decreases s, 1
  {
    hide LowerExpr, FixedPoint, MergeBindings, LowerLoop, LowerLoopOnce, IfCode, BranchCode, BlockCode, LeaveCode, Fits;
    match s
    case ExprStmt(e) =>
      LoweredBinds(e, b, base);
    case If(_, _, _) =>
      IfPlaces(s, at, b, base, loop, mode);
    case Block(body) =>
      ListPlaces(body, at + 1, b, base + 1, loop, base, mode);
    case While(_, _) =>
      LoopPlaces(s, at, b, base, loop, completion, mode);
    case DoWhile(_, _) =>
      LoopPlaces(s, at, b, base, loop, completion, mode);
    case _ =>
  }

  lemma LoopPlaces(s: Stmt, at: nat, b: Bindings, base: nat, loop: Option<Loop>, completion: Option<nat>, mode: Head)
    requires (s.While? || s.DoWhile?) && LowerStmt(s, at, b, base, loop, completion, mode).Some?
    ensures SamePlaces(b, LowerStmt(s, at, b, base, loop, completion, mode).value.after)
  {
    hide LowerStmt, LowerLoopOnce, LoopCode, LowerExpr, FixedPoint, Fits;
    var tried := LoopLowers(s, at, b, base, loop, completion, mode);
    OnceLowers(s, at, b, base, tried);
    var head := FixedPoint(s.body, b, tried.Widened?);
    forall n | n in b ensures b[n].register == head[n].register {
      assert Rises(b[n], head[n]);
    }
  }

  lemma {:induction false} IfPlaces(s: Stmt, at: nat, b: Bindings, base: nat, loop: Option<Loop>, mode: Head)
    requires s.If? && LowerIf(s, at, b, base, loop, mode).Some?
    ensures SamePlaces(b, LowerIf(s, at, b, base, loop, mode).value.after)
    decreases s, 0
  {
    hide LowerExpr, MergeBindings, IfCode, BranchCode, LowerStmt, StmtLen, ExprLen, JoinFlow;
    LoweredBinds(s.condition, b, base);
    var c := LowerExpr(s.condition, b, base).value.after;
    var start := at + ExprLen(s.condition) + 3;
    var other := start + StmtLen(s.yes, true) + (if Abrupt(s.yes) then 0 else 1) + 2;
    StmtPlaces(s.yes, start, c, base + 1, loop, Some(base), mode);
    var yes := LowerStmt(s.yes, start, c, base + 1, loop, Some(base), mode).value.after;
    var no := c;
    if s.no.Some? {
      StmtPlaces(s.no.value, other, c, base + 1, loop, Some(base), mode);
      no := LowerStmt(s.no.value, other, c, base + 1, loop, Some(base), mode).value.after;
    }
    if MergeBindings(yes, no).Some? {
      MergeKeepsShape(yes, no);
    }
  }

  lemma {:induction false} ListPlaces(body: seq<Stmt>, at: nat, b: Bindings, base: nat, loop: Option<Loop>,
      result: nat, mode: Head)
    requires LowerList(body, at, b, base, loop, result, mode).Some?
    ensures SamePlaces(b, LowerList(body, at, b, base, loop, result, mode).value.after)
    decreases body, 1
  {
    hide LowerStmt, KeepCode;
    if body != [] {
      StmtPlaces(body[0], at, b, base, loop, Some(result), mode);
      var first := LowerStmt(body[0], at, b, base, loop, Some(result), mode).value;
      if !first.flow.FlowAbrupt? {
        var keep := KeepCode(result, !first.flow.FlowValue?);
        ListPlaces(body[1..], at + |first.code| + |keep|, first.after, base, loop, result, mode);
      }
    }
  }

  lemma {:induction false} BodyPlaces(program: seq<Stmt>, at: nat, b: Bindings, base: nat, result: nat)
    requires LowerBody(program, at, b, base, result).Some?
    ensures SamePlaces(b, LowerBody(program, at, b, base, result).value.after)
    decreases program
  {
    hide LowerStmt, KeepCode;
    if program != [] {
      StmtPlaces(program[0], at + 1, b, base, None, None, Declared);
      var first := LowerStmt(program[0], at + 1, b, base, None, None, Declared).value;
      if !first.flow.FlowAbrupt? {
        var keep := KeepCode(result, !first.flow.FlowValue?);
        BodyPlaces(program[1..], at + 1 + |first.code| + |keep|, first.after, base, result);
      }
    }
  }
}
