/** How statements end, by their form. */
module StatementKinds {
  import opened Wrappers
  import opened Source
  import StatementLowering

  /** A statement that ends normally is one that can, and whether it has a value shows in its form. */
  lemma {:induction false} NormalFits(ops: Operators, s: Stmt, env: Env, fuel: nat)
    requires StmtBound(s, env.Keys)
    ensures var r := EvalStmt(ops, s, env, fuel);
      r.Some? && r.value.kind == Normal ==>
        !StatementLowering.Abrupt(s) && (r.value.value.Some? <==> StatementLowering.HasValue(s))
    decreases s
  {
    hide EvalExpr, EvalWhile, EvalDoWhile, ExprBound;
    match s
    case If(condition, yes, no) =>
      var c := EvalExpr(ops, condition, env);
      NormalFits(ops, yes, c.env, fuel);
      if no.Some? {
        NormalFits(ops, no.value, c.env, fuel);
      }
    case Block(body) =>
      ListFits(ops, body, env, fuel);
    case _ =>
  }

  lemma {:induction false} ListFits(ops: Operators, body: seq<Stmt>, env: Env, fuel: nat)
    requires ListBound(body, env.Keys)
    ensures var r := EvalList(ops, body, env, fuel);
      r.Some? && r.value.kind == Normal ==>
        !StatementLowering.ListAbrupt(body) && (r.value.value.Some? <==> StatementLowering.ListHasValue(body))
    decreases body
  {
    if body != [] {
      NormalFits(ops, body[0], env, fuel);
      var first := EvalStmt(ops, body[0], env, fuel);
      if first.Some? && first.value.kind == Normal {
        ListFits(ops, body[1..], first.value.env, fuel);
      }
    }
  }
}
