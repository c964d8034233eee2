/** The tracked types over-approximate every run. */
module TrackedTypes {
  import opened Wrappers
  import opened Source
  import opened Machines
  import opened CodeLayout
  import opened RegisterTypes
  import opened TypeInference
  import opened RegisterMachine
  import opened ExpressionLowering
  import opened RegisterExpressions
  import opened StatementLowering
  import opened RegisterStatements
  import StatementKinds

  /** Every binding's value is of the type tracked for it. */
  ghost predicate Typed(b: Bindings, env: Env) {
    env.Keys == b.Keys && forall x | x in b :: Tracks(b[x], env[x])
  }

  lemma MatchIsTyped(b: Bindings, env: Env, regs: seq<Value>, floor: nat)
    requires Match(b, env, regs, floor)
    ensures Typed(b, env)
  {
  }

  /** Bindings of their types can be held by registers. */
  lemma TypedIsMatch(b: Bindings, env: Env, floor: nat) returns (regs: seq<Value>)
    requires Typed(b, env) && Placed(b, floor)
    ensures Match(b, env, regs, floor)
  {
    regs := FilledRegisters(b, env, b.Keys);
  }

  lemma {:induction false} FilledRegisters(b: Bindings, env: Env, names: set<string>) returns (regs: seq<Value>)
    requires names <= b.Keys && b.Keys == env.Keys && (exists floor :: Placed(b, floor))
    ensures |regs| == REGISTERS && forall x | x in names :: b[x].register < REGISTERS && regs[b[x].register] == env[x]
    decreases names
  {
    var floor :| Placed(b, floor);
    if names == {} {
      regs := seq(REGISTERS, _ => Undefined);
    } else {
      var n :| n in names;
      var rest := FilledRegisters(b, env, names - {n});
      regs := rest[b[n].register := env[n]];
      forall x | x in names ensures b[x].register < REGISTERS && regs[b[x].register] == env[x] {
        if x != n {
          assert x in names - {n};
          assert b[x].register != b[n].register;
        }
      }
    }
  }

  /** Code that has `part` at `at`. */
  function Padded(at: nat, part: seq<Instr>): (code: seq<Instr>)
    ensures |code| == at + |part|
  {
    seq(at, _ => LogicalNot) + part
  }

  lemma PaddedStands(at: nat, part: seq<Instr>)
    ensures CodeAt(Padded(at, part), at, part)
  {
  }

  /** What is known of a statement that was lowered: where its bindings are, and what is in use. */
  ghost predicate Accepted(ops: Operators, s: Stmt, at: nat, b: Bindings, base: nat, floor: nat, loop: Option<Loop>,
      completion: Option<nat>, mode: Head, env: Env) {
    && Lawful(ops) && StmtBound(s, env.Keys) && Placed(b, floor) && Framed(floor, base, loop, completion)
    && LowerStmt(s, at, b, base, loop, completion, mode).Some?
  }

  /** A statement keeps to the types: at its end the bindings are of the types tracked there, and where
      it jumps they are of the types at the head of the loop. */
  lemma StatementsKeepTypes(ops: Operators, s: Stmt, at: nat, b: Bindings, base: nat, floor: nat, loop: Option<Loop>,
      completion: Option<nat>, mode: Head, env: Env, fuel: nat)
    requires Accepted(ops, s, at, b, base, floor, loop, completion, mode, env) && Typed(b, env)
    ensures var r := EvalStmt(ops, s, env, fuel);
      && (r.Some? && r.value.kind == Normal ==>
            Typed(LowerStmt(s, at, b, base, loop, completion, mode).value.after, r.value.env))
      && (r.Some? && r.value.kind != Normal ==> loop.Some? && Typed(loop.value.head, r.value.env))
  {
    hide Lawful, CodeAt, Machine, Reaches, Match, KeptBut, LowerStmt, EvalStmt, Placed, Typed, StmtLen, RunsFor, Padded;
    var regs := TypedIsMatch(b, env, floor);
    Sized(b, env, regs, floor);
    var part := LowerStmt(s, at, b, base, loop, completion, mode).value;
    PaddedStands(at, part.code);
    var acc := if completion.Some? then regs[completion.value] else Undefined;
    var after := StmtRuns(ops, Padded(at, part.code), s, b, base, floor, loop, completion, mode, env,
        State(at, acc, regs), fuel);
    var r := EvalStmt(ops, s, env, fuel);
    if r.Some? {
      MatchIsTyped(if r.value.kind == Normal then part.after else loop.value.head, r.value.env, after, floor);
    }
  }

  // ---------- the head of a loop ----------

  /** The bindings when a loop comes to its head again, if it does. */
  ghost function Round(ops: Operators, s: Stmt, env: Env, fuel: nat): (r: Option<Env>)
    requires (s.While? || s.DoWhile?) && StmtBound(s, env.Keys)
    ensures r.Some? ==> r.value.Keys == env.Keys
  {
    if s.While? then
      var c := EvalExpr(ops, s.condition, env);
      if !ops.truthy(c.value) then None
      else
        var r := EvalStmt(ops, s.body, c.env, fuel);
        if r.None? || r.value.kind == Breaks then None else Some(r.value.env)
    else
      var r := EvalStmt(ops, s.body, env, fuel);
      if r.None? || r.value.kind == Breaks then None
      else
        var c := EvalExpr(ops, s.condition, r.value.env);
        if ops.truthy(c.value) then Some(c.env) else None
  }

  /** The bindings after going back `k` times. */
  ghost function HeadEnv(ops: Operators, s: Stmt, env: Env, k: nat, fuel: nat): (r: Option<Env>)
    requires (s.While? || s.DoWhile?) && StmtBound(s, env.Keys)
    ensures r.Some? ==> r.value.Keys == env.Keys
  {
    if k == 0 then Some(env)
    else
      var before := HeadEnv(ops, s, env, k - 1, fuel);
      if before.None? then None else Round(ops, s, before.value, fuel)
  }

  lemma RoundKeepsTypes(ops: Operators, s: Stmt, at: nat, b: Bindings, base: nat, floor: nat, head: Bindings,
      mode: Head, env: Env, fuel: nat)
    requires (s.While? || s.DoWhile?) && Lawful(ops) && floor <= base && StmtBound(s, env.Keys) && Placed(head, floor)
    requires LoopLowered(s, at, b, base, head, mode) && Typed(head, env)
    ensures Round(ops, s, env, fuel).Some? ==> Typed(head, Round(ops, s, env, fuel).value)
  {
    hide Lawful, LowerStmt, LowerExpr, Fits, AllRise, EvalStmt, EvalExpr, Placed, Typed, BodyAt, LoopOf, ExprBound,
        AllBelow;
    var loop := LoopOf(s, at, base, head);
    LoopResult(s, at, base, head);
    if s.While? {
      ExpressionsKeepTypes(ops, s.condition, head, base + 1, floor, env);
      var c := EvalExpr(ops, s.condition, env);
      StatementsKeepTypes(ops, s.body, BodyAt(s, at), head, base + 1, floor, Some(loop), None, mode, c.env, fuel);
      RoundEnds(ops, s, at, base, head, mode, c.env, fuel);
    } else {
      StatementsKeepTypes(ops, s.body, BodyAt(s, at), head, base + 1, floor, Some(loop), None, mode, env, fuel);
      RoundEnds(ops, s, at, base, head, mode, env, fuel);
      var r := EvalStmt(ops, s.body, env, fuel);
      if r.Some? && Typed(head, r.value.env) {
        ExpressionsKeepTypes(ops, s.condition, head, base + 1, floor, r.value.env);
      }
    }
  }

  /** A body that reaches its end leaves bindings that fit the head. */
  lemma RoundEnds(ops: Operators, s: Stmt, at: nat, base: nat, head: Bindings, mode: Head, env: Env, fuel: nat)
    requires (s.While? || s.DoWhile?) && StmtBound(s.body, env.Keys)
    requires var body := LowerStmt(s.body, BodyAt(s, at), head, base + 1, Some(LoopOf(s, at, base, head)), None, mode);
      body.Some? && (!Abrupt(s.body) ==> Fits(body.value.after, head))
    ensures var after := LowerStmt(s.body, BodyAt(s, at), head, base + 1, Some(LoopOf(s, at, base, head)), None,
        mode).value.after;
      var r := EvalStmt(ops, s.body, env, fuel);
      r.Some? && r.value.kind == Normal && Typed(after, r.value.env) ==> Typed(head, r.value.env)
  {
    hide LowerStmt, EvalStmt, BodyAt, LoopOf, Inhabits, Below;
    StatementKinds.NormalFits(ops, s.body, env, fuel);
    var after := LowerStmt(s.body, BodyAt(s, at), head, base + 1, Some(LoopOf(s, at, base, head)), None,
        mode).value.after;
    var r := EvalStmt(ops, s.body, env, fuel);
    if r.Some? && r.value.kind == Normal && Typed(after, r.value.env) {
      FitsIsOrder(after, head);
      forall x | x in head ensures Tracks(head[x], r.value.env[x]) {
        assert BindingBelow(after[x], head[x]) && Tracks(after[x], r.value.env[x]);
        Widens(r.value.env[x], after[x].ty.value, head[x].ty.value);
      }
    }
  }

  lemma ExpressionsKeepTypes(ops: Operators, e: Expr, b: Bindings, base: nat, floor: nat, env: Env)
    requires Lawful(ops) && floor <= base && Placed(b, floor) && Typed(b, env) && LowerExpr(e, b, base).Some?
    ensures ExprBound(e, env.Keys)
    ensures Typed(LowerExpr(e, b, base).value.after, EvalExpr(ops, e, env).env)
    ensures Inhabits(EvalExpr(ops, e, env).value, LowerExpr(e, b, base).value.ty)
  {
    hide Lawful, CodeAt, Machine, Reaches, Match, Kept, LowerExpr, EvalExpr, Placed, Typed, ExprLen, Padded, Inhabits;
    var regs := TypedIsMatch(b, env, floor);
    var part := LowerExpr(e, b, base).value;
    PaddedStands(0, part.code);
    var after := ExprRuns(ops, Padded(0, part.code), e, b, base, floor, env, State(0, Undefined, regs));
    MatchIsTyped(part.after, EvalExpr(ops, e, env).env, after, floor);
  }

  /** At the head of a loop, however often it comes there, every binding is of the type the head has for
      it; and the head covers the types the loop was entered with. */
  lemma {:induction false} HeadKeepsTypes(ops: Operators, s: Stmt, at: nat, b: Bindings, base: nat, floor: nat,
      mode: Head, env: Env, k: nat, fuel: nat)
    requires (s.While? || s.DoWhile?) && Lawful(ops) && floor <= base && StmtBound(s, env.Keys) && Placed(b, floor)
    requires LowerLoopOnce(s, at, b, base, mode).Some? && Typed(b, env)
    ensures var head := LowerLoopOnce(s, at, b, base, mode).value.after;
      AllBelow(b, head) && (HeadEnv(ops, s, env, k, fuel).Some? ==> Typed(head, HeadEnv(ops, s, env, k, fuel).value))
    decreases k
  {
    hide Lawful, LowerLoopOnce, LowerStmt, LowerExpr, EvalStmt, EvalExpr, FixedPoint, Round, LoopCode, StmtBound, Match;
    OnceLowers(s, at, b, base, mode);
    var head := FixedPoint(s.body, b, mode.Widened?);
    HeadCovers(b, head, env, floor);
    if k > 0 {
      HeadKeepsTypes(ops, s, at, b, base, floor, mode, env, k - 1, fuel);
      var before := HeadEnv(ops, s, env, k - 1, fuel);
      if before.Some? {
        RoundKeepsTypes(ops, s, at, b, base, floor, head, mode, before.value, fuel);
      }
    }
  }

  lemma HeadCovers(b: Bindings, head: Bindings, env: Env, floor: nat)
    requires AllRise(b, head) && Typed(b, env) && Placed(b, floor)
    ensures AllBelow(b, head) && Typed(head, env) && Placed(head, floor)
  {
    hide Below, Inhabits;
    forall x | x in b ensures BindingBelow(b[x], head[x]) && Tracks(head[x],
        env[x]) && head[x].register == b[x].register {
      assert Rises(b[x], head[x]) && Tracks(b[x], env[x]);
      Widens(env[x], b[x].ty.value, head[x].ty.value);
    }
  }
}
