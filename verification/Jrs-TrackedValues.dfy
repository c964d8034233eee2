/** The type tracked for the value of a statement is that of every value it can have, as long as nothing
    jumps. */
module TrackedValues {
  import opened Wrappers
  import opened Source
  import opened RegisterTypes
  import opened TypeInference
  import RegisterMachine
  import opened ExpressionLowering
  import opened RegisterExpressions
  import opened StatementLowering
  import opened RegisterStatements
  import opened BindingPlaces
  import opened TrackedTypes
  import opened PlainTypes
  import opened ScriptAcceptance

  /** No `break` and no `continue` in it. */
  predicate Straight(s: Stmt) {
    match s
    case If(_, yes, no) => Straight(yes) && (no.Some? ==> Straight(no.value))
    case Block(body) => ListStraight(body)
    case While(_, body) => Straight(body)
    case DoWhile(body, _) => Straight(body)
    case Break => false
    case Continue => false
    case _ => true
  }

  predicate ListStraight(body: seq<Stmt>) {
    body == [] || (Straight(body[0]) && ListStraight(body[1..]))
  }

  lemma {:induction false} StraightReachesItsEnd(s: Stmt)
    requires Straight(s)
    ensures !Abrupt(s)
    decreases s
  {
    match s
    case If(_, yes, _) =>
      StraightReachesItsEnd(yes);
    case Block(body) =>
      ListReachesItsEnd(body);
    case _ =>
  }

  lemma {:induction false} ListReachesItsEnd(body: seq<Stmt>)
    requires ListStraight(body)
    ensures !ListAbrupt(body)
    decreases body
  {
    if body != [] {
      StraightReachesItsEnd(body[0]);
      ListReachesItsEnd(body[1..]);
    }
  }

  /** There is a value where the flow says so, and it is of the type. */
  predicate Follows(value: Option<Value>, flow: Flow) {
    match flow
    case FlowEmpty => value.None?
    case FlowValue(ty) => value.Some? && Inhabits(value.value, ty)
    case FlowAbrupt => false
  }

  /** A completion that is normal and follows the flow. */
  predicate Ends(r: Option<Completion>, flow: Flow) {
    r.Some? ==> r.value.kind == Normal && Follows(r.value.value, flow)
  }

  lemma PlacedThere(b: Bindings, c: Bindings, floor: nat)
    requires SamePlaces(b, c) && Placed(b, floor)
    ensures Placed(c, floor)
  {
  }

  lemma PlacedAlike(b: Bindings, c: Bindings, floor: nat)
    requires SameShape(b, c) && Placed(b, floor)
    ensures Placed(c, floor)
  {
    forall n | n in b ensures b[n].register == c[n].register {
      assert Alike(b[n], c[n]);
    }
    PlacedThere(b, c, floor);
  }

  lemma {:induction false} ValueIsTracked(ops: Operators, s: Stmt, at: nat, b: Bindings, base: nat, floor: nat,
      loop: Option<Loop>, completion: Option<nat>, mode: Head, env: Env, fuel: nat)
    requires Accepted(ops, s, at, b, base, floor, loop, completion, mode, env) && Typed(b, env) && Straight(s)
    ensures Ends(EvalStmt(ops, s, env, fuel), LowerStmt(s, at, b, base, loop, completion, mode).value.flow)
    decreases fuel, s, 3
  {
    hide RegisterMachine.Lawful, LowerExpr, LowerLoop, LowerIf, LowerList, EvalExpr, EvalWhile, EvalDoWhile,
      EvalList, Placed, Typed, ExprBound, BlockCode, LeaveCode, Fits, Inhabits, StmtLen, Valuable;
    match s
    case ExprStmt(e) =>
      ExpressionsKeepTypes(ops, e, b, base, floor, env);
    case If(_, _, _) =>
      IfIsTracked(ops, s, at, b, base, floor, loop, completion, mode, env, fuel);
    case Block(body) =>
      BlockIsTracked(ops, s, at, b, base, floor, loop, completion, mode, env, fuel);
    case While(_, _) =>
      LoopIsTracked(ops, s, at, b, base, floor, loop, completion, mode, env, fuel);
    case DoWhile(_, _) =>
      LoopIsTracked(ops, s, at, b, base, floor, loop, completion, mode, env, fuel);
    case _ =>
  }

  // ---------- branches and blocks ----------

  lemma {:induction false} IfIsTracked(ops: Operators, s: Stmt, at: nat, b: Bindings, base: nat, floor: nat,
      loop: Option<Loop>, completion: Option<nat>, mode: Head, env: Env, fuel: nat)
    requires s.If?
    requires Accepted(ops, s, at, b, base, floor, loop, completion, mode, env) && Typed(b, env) && Straight(s)
    ensures Ends(EvalStmt(ops, s, env, fuel), LowerStmt(s, at, b, base, loop, completion, mode).value.flow)
    decreases fuel, s, 2
  {
    hide RegisterMachine.Lawful, LowerExpr, LowerStmt, EvalExpr, Placed, Typed, ExprBound, Inhabits, StmtLen,
      ExprLen, IfCode, BranchCode, Join, JoinFlow, Ends, SameShape;
    IfShape(s, at, b, base, loop, completion, mode);
    ExpressionsKeepTypes(ops, s.condition, b, base, floor, env);
    LoweredBinds(s.condition, b, base);
    var c, e := EvalExpr(ops, s.condition, env), LowerExpr(s.condition, b, base).value.after;
    PlacedAlike(b, e, floor);
    var start := at + ExprLen(s.condition) + 1;
    var other := start + 2 + StmtLen(s.yes, true) + (if Abrupt(s.yes) then 0 else 1);
    var yes := LowerStmt(s.yes, start + 2, e, base + 1, loop, Some(base), mode).value.flow;
    var no := LoweredNo(s, other + 2, e, base, loop, mode).value.flow;
    StraightReachesItsEnd(s.yes);
    ValueIsTracked(ops, s.yes, start + 2, e, base + 1, floor, loop, Some(base), mode, c.env, fuel);
    if s.no.Some? {
      StraightReachesItsEnd(s.no.value);
      ValueIsTracked(ops, s.no.value, other + 2, e, base + 1, floor, loop, Some(base), mode, c.env, fuel);
    }
    IfEnds(ops, s, c, fuel, yes, no);
    assert EvalStmt(ops, s, env, fuel) == Branch(ops, s, c, fuel);
  }

  /** The branch an `if` takes. */
  function Branch(ops: Operators, s: Stmt, c: Valued, fuel: nat): (r: Option<Completion>)
    requires s.If? && StmtBound(s.yes, c.env.Keys) && (s.no.Some? ==> StmtBound(s.no.value, c.env.Keys))
  {
    if ops.truthy(c.value) then Valuable(EvalStmt(ops, s.yes, c.env, fuel))
    else if s.no.Some? then Valuable(EvalStmt(ops, s.no.value, c.env, fuel))
    else Some(Completion(Normal, Some(Undefined), c.env))
  }

  lemma IfEnds(ops: Operators, s: Stmt, c: Valued, fuel: nat, yes: Flow, no: Flow)
    requires s.If? && StmtBound(s.yes, c.env.Keys) && (s.no.Some? ==> StmtBound(s.no.value, c.env.Keys))
    requires Ends(EvalStmt(ops, s.yes, c.env, fuel), yes) && !yes.FlowAbrupt? && !no.FlowAbrupt?
    requires if s.no.Some? then Ends(EvalStmt(ops, s.no.value, c.env, fuel), no) else no == FlowValue(TUndefined)
    ensures Ends(Branch(ops, s, c, fuel), JoinFlow(yes, no))
  {
    hide EvalStmt, JoinFlow;
    var r := EvalStmt(ops, s.yes, c.env, fuel);
    if ops.truthy(c.value) {
      if r.Some? {
        Joins(r.value.value, yes, no);
      }
    } else if s.no.Some? {
      var n := EvalStmt(ops, s.no.value, c.env, fuel);
      if n.Some? {
        Joins(n.value.value, no, yes);
      }
    } else {
      Joins(Some(Undefined), no, yes);
    }
  }

  /** A value of one branch, undefined where there is none, is of the joined type. */
  lemma Joins(value: Option<Value>, x: Flow, y: Flow)
    requires Follows(value, x) && !y.FlowAbrupt?
    ensures Follows(Some(UpdateEmpty(value, Undefined)), JoinFlow(x, y))
    ensures Follows(Some(UpdateEmpty(value, Undefined)), JoinFlow(y, x))
  {
    hide Merge;
    var v := UpdateEmpty(value, Undefined);
    assert Inhabits(Undefined, TUndefined);
    if x.FlowValue? {
      InMerge(v, TUndefined, x.ty);
      if y.FlowValue? {
        InMerge(v, x.ty, y.ty);
        InMerge(v, y.ty, x.ty);
      }
    } else if y.FlowValue? {
      InMerge(v, TUndefined, y.ty);
    }
  }

  lemma {:induction false} BlockIsTracked(ops: Operators, s: Stmt, at: nat, b: Bindings, base: nat, floor: nat,
      loop: Option<Loop>, completion: Option<nat>, mode: Head, env: Env, fuel: nat)
    requires s.Block?
    requires Accepted(ops, s, at, b, base, floor, loop, completion, mode, env) && Typed(b, env) && Straight(s)
    ensures Ends(EvalStmt(ops, s, env, fuel), LowerStmt(s, at, b, base, loop, completion, mode).value.flow)
    decreases fuel, s, 2
  {
    hide RegisterMachine.Lawful, LowerList, EvalList, Placed, Typed, BlockCode, Ends, StmtLen, ListLen;
    ListIsTracked(ops, s.statements, at + 1, b, base + 1, floor, loop, base, mode, env, fuel);
  }

  lemma {:induction false} ListIsTracked(ops: Operators, body: seq<Stmt>, at: nat, b: Bindings, base: nat, floor: nat,
      loop: Option<Loop>, result: nat, mode: Head, env: Env, fuel: nat)
    requires RegisterMachine.Lawful(ops) && ListBound(body, env.Keys) && Placed(b, floor)
    requires Typed(b, env) && ListStraight(body)
    requires Framed(floor, base, loop, Some(result)) && LowerList(body, at, b, base, loop, result, mode).Some?
    ensures Ends(EvalList(ops, body, env, fuel), LowerList(body, at, b, base, loop, result, mode).value.flow)
    decreases fuel, body, 1
  {
    hide RegisterMachine.Lawful, LowerStmt, EvalStmt, Placed, Typed, KeepCode, Inhabits, SamePlaces, StmtLen, ListLen;
    if body != [] {
      ValueIsTracked(ops, body[0], at, b, base, floor, loop, Some(result), mode, env, fuel);
      StraightReachesItsEnd(body[0]);
      var first := LowerStmt(body[0], at, b, base, loop, Some(result), mode).value;
      var r := EvalStmt(ops, body[0], env, fuel);
      if r.Some? {
        StatementsKeepTypes(ops, body[0], at, b, base, floor, loop, Some(result), mode, env, fuel);
        StmtPlaces(body[0], at, b, base, loop, Some(result), mode);
        PlacedThere(b, first.after, floor);
        var keep := KeepCode(result, !first.flow.FlowValue?);
        ListIsTracked(ops, body[1..], at + |first.code| + |keep|, first.after, base, floor, loop, result, mode,
            r.value.env, fuel);
      }
    }
  }

  // ---------- loops ----------

  /** What is known at the head of a loop that was lowered. */
  ghost predicate AtHead(ops: Operators, s: Stmt, at: nat, b: Bindings, base: nat, floor: nat, head: Bindings,
      mode: Head, env: Env) {
    && (s.While? || s.DoWhile?) && RegisterMachine.Lawful(ops) && floor <= base && StmtBound(s, env.Keys) && Straight(s)
    && LoopLowered(s, at, b, base, head, mode) && Placed(head, floor) && Typed(head, env)
  }

  ghost function BodyFlow(s: Stmt, at: nat, base: nat, head: Bindings, mode: Head): (flow: Flow)
    requires s.While? || s.DoWhile?
    requires LowerStmt(s.body, BodyAt(s, at), head, base + 1, Some(LoopOf(s, at, base, head)), None, mode).Some?
  {
    LowerStmt(s.body, BodyAt(s, at), head, base + 1, Some(LoopOf(s, at, base, head)), None, mode).value.flow
  }

  lemma {:induction false} LoopIsTracked(ops: Operators, s: Stmt, at: nat, b: Bindings, base: nat, floor: nat,
      loop: Option<Loop>, completion: Option<nat>, mode: Head, env: Env, fuel: nat)
    requires s.While? || s.DoWhile?
    requires Accepted(ops, s, at, b, base, floor, loop, completion, mode, env) && Typed(b, env) && Straight(s)
    ensures Ends(EvalStmt(ops, s, env, fuel), LowerStmt(s, at, b, base, loop, completion, mode).value.flow)
    decreases fuel, s, 2
  {
    hide RegisterMachine.Lawful, LowerStmt, LowerLoopOnce, LoopCode, LowerExpr, FixedPoint, Fits, AllRise, EvalWhile,
      EvalDoWhile, Typed, Placed, Inhabits, LoopLowered, SamePlaces;
    var tried := LoopLowers(s, at, b, base, loop, completion, mode);
    OnceLowers(s, at, b, base, tried);
    LoopFlow(s, at, b, base, tried);
    var head := FixedPoint(s.body, b, tried.Widened?);
    HeadIsTyped(ops, s, at, b, base, floor, head, tried, env);
    UndefinedInhabits();
    if s.While? {
      WhileIsTracked(ops, s, at, b, base, floor, head, tried, env, Undefined, fuel);
    } else {
      DoWhileIsTracked(ops, s, at, b, base, floor, head, tried, env, Undefined, fuel);
    }
  }

  lemma UndefinedInhabits()
    ensures Inhabits(Undefined, TUndefined) && forall t :: Inhabits(Undefined, Merge(TUndefined, t))
  {
    forall t ensures Inhabits(Undefined, Merge(TUndefined, t)) {
      InMerge(Undefined, TUndefined, t);
    }
  }

  lemma HeadIsTyped(ops: Operators, s: Stmt, at: nat, b: Bindings, base: nat, floor: nat, head: Bindings, mode: Head,
      env: Env)
    requires (s.While? || s.DoWhile?) && LoopLowered(s, at, b, base, head, mode) && Typed(b, env) && Placed(b, floor)
    ensures Typed(head, env) && Placed(head, floor)
  {
    hide LowerStmt, LowerExpr, Fits, AllRise;
    HeadCovers(b, head, env, floor);
  }

  /** One round from the head: the body's value follows its flow, and the bindings are at the head again. */
  lemma {:induction false} BodyIsTracked(ops: Operators, s: Stmt, at: nat, b: Bindings, base: nat, floor: nat,
      head: Bindings, mode: Head, env: Env, fuel: nat)
    requires AtHead(ops, s, at, b, base, floor, head, mode, env)
    ensures LowerStmt(s.body, BodyAt(s, at), head, base + 1, Some(LoopOf(s, at, base, head)), None, mode).Some?
    ensures var r := EvalStmt(ops, s.body, env, fuel);
      Ends(r, BodyFlow(s, at, base, head, mode)) && (r.Some? ==> Typed(head, r.value.env))
    decreases fuel, s.body, 4
  {
    hide RegisterMachine.Lawful, LowerStmt, LowerExpr, Fits, AllRise, EvalStmt, Typed, Placed, BodyAt, LoopOf, Ends,
      ExprBound;
    LoopResult(s, at, base, head);
    var loop := LoopOf(s, at, base, head);
    StraightReachesItsEnd(s.body);
    ValueIsTracked(ops, s.body, BodyAt(s, at), head, base + 1, floor, Some(loop), None, mode, env, fuel);
    var r := EvalStmt(ops, s.body, env, fuel);
    if r.Some? {
      NormalEnds(r, BodyFlow(s, at, base, head, mode));
      StatementsKeepTypes(ops, s.body, BodyAt(s, at), head, base + 1, floor, Some(loop), None, mode, env, fuel);
      RoundEnds(ops, s, at, base, head, mode, env, fuel);
    }
  }

  lemma NormalEnds(r: Option<Completion>, flow: Flow)
    requires Ends(r, flow) && r.Some?
    ensures r.value.kind == Normal
  {
  }

  /** The value after a round: the body's, or the one before. */
  lemma NextFollows(s: Stmt, value: Value, r: Option<Completion>, flow: Flow)
    requires Ends(r, flow) && r.Some?
    requires flow.FlowValue? || Inhabits(value, TUndefined)
    ensures Inhabits(UpdateEmpty(r.value.value, value), LoopType(s, flow))
  {
    hide Merge;
    if flow.FlowValue? {
      InMerge(r.value.value.value, TUndefined, flow.ty);
    }
  }

  lemma {:induction false} WhileIsTracked(ops: Operators, s: Stmt, at: nat, b: Bindings, base: nat, floor: nat,
      head: Bindings, mode: Head, env: Env, value: Value, fuel: nat)
    requires AtHead(ops, s, at, b, base, floor, head, mode, env) && s.While?
    requires LowerStmt(s.body, BodyAt(s, at), head, base + 1, Some(LoopOf(s, at, base, head)), None, mode).Some?
    requires Inhabits(value, LoopType(s, BodyFlow(s, at, base, head, mode)))
    ensures var r := EvalWhile(ops, s.condition, s.body, env, value, fuel);
      r.Some? ==> Inhabits(r.value.value.value, LoopType(s, BodyFlow(s, at, base, head, mode)))
    decreases fuel, s.body, 5
  {
    hide RegisterMachine.Lawful, LowerStmt, LowerExpr, Fits, AllRise, EvalStmt, EvalExpr, Typed, Placed, BodyAt,
      LoopOf, Ends, ExprBound, Inhabits, LoopType, LoopLowered, BodyFlow;
    ConditionAtHead(ops, s, at, b, base, floor, head, mode, env);
    var c := EvalExpr(ops, s.condition, env);
    if ops.truthy(c.value) {
      BodyIsTracked(ops, s, at, b, base, floor, head, mode, c.env, fuel);
      var r := EvalStmt(ops, s.body, c.env, fuel);
      var flow := BodyFlow(s, at, base, head, mode);
      if r.Some? {
        NormalEnds(r, flow);
        EmptyLoop(s, flow, value);
        NextFollows(s, value, r, flow);
        if fuel > 0 {
          var next := UpdateEmpty(r.value.value, value);
          WhileIsTracked(ops, s, at, b, base, floor, head, mode, r.value.env, next, fuel - 1);
        }
      }
    }
  }

  lemma EmptyLoop(s: Stmt, flow: Flow, value: Value)
    requires Inhabits(value, LoopType(s, flow))
    ensures flow.FlowValue? || Inhabits(value, TUndefined)
  {
  }

  lemma ConditionAtHead(ops: Operators, s: Stmt, at: nat, b: Bindings, base: nat, floor: nat, head: Bindings,
      mode: Head, env: Env)
    requires AtHead(ops, s, at, b, base, floor, head, mode, env)
    ensures AtHead(ops, s, at, b, base, floor, head, mode, EvalExpr(ops, s.condition, env).env)
  {
    hide RegisterMachine.Lawful, LowerStmt, LowerExpr, Fits, AllRise, EvalExpr, Typed, Placed, BodyAt, LoopOf,
      ExprBound, Straight;
    ExpressionsKeepTypes(ops, s.condition, head, base + 1, floor, env);
  }

  lemma {:induction false} DoWhileIsTracked(ops: Operators, s: Stmt, at: nat, b: Bindings, base: nat, floor: nat,
      head: Bindings, mode: Head, env: Env, value: Value, fuel: nat)
    requires AtHead(ops, s, at, b, base, floor, head, mode, env) && s.DoWhile?
    requires LowerStmt(s.body, BodyAt(s, at), head, base + 1, Some(LoopOf(s, at, base, head)), None, mode).Some?
    requires BodyFlow(s, at, base, head, mode).FlowValue? || Inhabits(value, TUndefined)
    ensures var r := EvalDoWhile(ops, s.body, s.condition, env, value, fuel);
      r.Some? ==> Inhabits(r.value.value.value, LoopType(s, BodyFlow(s, at, base, head, mode)))
    decreases fuel, s.body, 5
  {
    hide RegisterMachine.Lawful, LowerStmt, LowerExpr, Fits, AllRise, EvalStmt, EvalExpr, Typed, Placed, BodyAt,
      LoopOf, Ends, ExprBound, Inhabits, LoopType, LoopLowered, BodyFlow;
    BodyIsTracked(ops, s, at, b, base, floor, head, mode, env, fuel);
    var r := EvalStmt(ops, s.body, env, fuel);
    var flow := BodyFlow(s, at, base, head, mode);
    if r.Some? {
      NormalEnds(r, flow);
      NextFollows(s, value, r, flow);
      var next := UpdateEmpty(r.value.value, value);
      EmptyLoop(s, flow, next);
      ConditionAtHead(ops, s, at, b, base, floor, head, mode, r.value.env);
      var c := EvalExpr(ops, s.condition, r.value.env);
      if ops.truthy(c.value) && fuel > 0 {
        DoWhileIsTracked(ops, s, at, b, base, floor, head, mode, c.env, next, fuel - 1);
      }
    }
  }

  // ---------- with a jump it need not be ----------

  const YES: Expr := Literal(Boolean(true))
  const TEST: Stmt := If(YES, Continue, None)
  const LAST: Stmt := ExprStmt(Literal(String([])))

  /** A loop whose body goes on early, with a string at its end. */
  const EARLY: Stmt := DoWhile(Block([TEST, LAST]), Literal(Boolean(false)))

  lemma EarlyBound(names: set<string>)
    ensures StmtBound(EARLY, names) && StmtBound(EARLY.body, names) && ListBound([TEST, LAST], names)
    ensures StmtBound(TEST, names) && StmtBound(Continue, names) && ExprBound(YES, names)
    ensures ExprBound(EARLY.condition, names)
  {
    assert ExprBound(YES, names) && ExprBound(LAST.expression, names) && ExprBound(EARLY.condition, names);
    assert StmtBound(Continue, names);
    assert StmtBound(TEST, names) && StmtBound(LAST, names);
    assert [TEST, LAST][1..] == [LAST] && [LAST][1..] == [];
    assert ListBound([], names);
    assert ListBound([LAST], names);
    assert StmtBound(EARLY.body, names);
  }

  /** It ends with undefined, and the type tracked for it is that of strings. */
  lemma JumpIsNotTracked(ops: Operators, env: Env, fuel: nat)
    requires ops.truthy(Boolean(true)) && !ops.truthy(Boolean(false))
    ensures StmtBound(EARLY, env.Keys)
    ensures EvalStmt(ops, EARLY, env, fuel) == Some(Completion(Normal, Some(Undefined), env))
    ensures LowerStmt(EARLY, 0, map[], 0, None, None, Declared).Some?
    ensures LowerStmt(EARLY, 0, map[], 0, None, None, Declared).value.flow == FlowValue(TString)
  {
    EarlyMeans(ops, env, fuel);
    EarlyLowers();
  }

  lemma EarlyMeans(ops: Operators, env: Env, fuel: nat)
    requires ops.truthy(Boolean(true)) && !ops.truthy(Boolean(false))
    ensures StmtBound(EARLY, env.Keys)
    ensures EvalStmt(ops, EARLY, env, fuel) == Some(Completion(Normal, Some(Undefined), env))
  {
    hide StmtBound, ListBound;
    EarlyBound(env.Keys);
    var no := EARLY.condition;
    assert EvalExpr(ops, no, env) == Valued(Boolean(false), env);
    assert EvalExpr(ops, YES, env) == Valued(Boolean(true), env);
    assert EvalStmt(ops, Continue, env, fuel) == Some(Completion(Continues, None, env));
    assert EvalStmt(ops, TEST, env, fuel) == Some(Completion(Continues, Some(Undefined), env));
    assert EvalList(ops, [TEST, LAST], env, fuel) == Some(Completion(Continues, Some(Undefined), env));
    assert EvalStmt(ops, EARLY.body, env, fuel) == Some(Completion(Continues, Some(Undefined), env));
    assert EvalDoWhileTest(ops, EARLY.body, no, env, Undefined, fuel) == Some(Completion(Normal, Some(Undefined), env));
    assert EvalDoWhile(ops, EARLY.body, no, env, Undefined, fuel) == Some(Completion(Normal, Some(Undefined), env));
  }

  lemma EarlyLowers()
    ensures LowerStmt(EARLY, 0, map[], 0, None, None, Declared).Some?
    ensures LowerStmt(EARLY, 0, map[], 0, None, None, Declared).value.flow == FlowValue(TString)
  {
    hide FixedPoint, LoopCode, LowerIf, LowerList, LoopOf, Fits;
    var none: Bindings := map[];
    StillWithout(EARLY.body, none);
    NoFixedPoint(EARLY.body, none);
    var loop := LoopOf(EARLY, 0, 0, none);
    LoopResult(EARLY, 0, 0, none);
    FitsNone();
    TestLowers(BodyAt(EARLY, 0) + 1, 2, loop);
    ListLowers(BodyAt(EARLY, 0) + 1, 2, loop);
    assert LowerExpr(EARLY.condition, none, 1).Some? && LowerExpr(EARLY.condition, none, 1).value.after == none;
    assert LowerStmt(EARLY.body, BodyAt(EARLY, 0), none, 1, Some(loop), None, Declared).Some?;
    assert LowerLoopOnce(EARLY, 0, none, 0, Declared).Some?;
  }

  lemma NoFixedPoint(s: Stmt, b: Bindings)
    requires InferStmt(s, b, false) == b
    ensures FixedPoint(s, b, false) == b
  {
    hide InferStmt;
  }

  lemma FitsNone()
    ensures Fits(map[], map[])
  {
    FitsIsOrder(map[], map[]);
  }

  lemma TestLowers(at: nat, base: nat, loop: Loop)
    requires loop.head == map[] && base == 2
    ensures var r := LowerStmt(TEST, at, map[], base, Some(loop), Some(1), Declared);
      r.Some? && r.value.flow == FlowValue(TUndefined) && r.value.after == map[]
  {
    hide Fits;
    FitsNone();
    var none: Bindings := map[];
    assert LowerExpr(YES, none, base).Some? && LowerExpr(YES, none, base).value.after == none;
  }

  lemma ListLowers(at: nat, base: nat, loop: Loop)
    requires loop.head == map[] && base == 2
    requires var r := LowerStmt(TEST, at, map[], base, Some(loop), Some(1), Declared);
      r.Some? && r.value.flow == FlowValue(TUndefined) && r.value.after == map[]
    ensures var r := LowerList([TEST, LAST], at, map[], base, Some(loop), 1, Declared);
      r.Some? && r.value.flow == FlowValue(TString) && r.value.after == map[]
  {
    hide LowerIf, LowerLoop, LeaveCode;
    var none: Bindings := map[];
    var first := LowerStmt(TEST, at, none, base, Some(loop), Some(1), Declared).value;
    var next := at + |first.code| + 1;
    assert [TEST, LAST][1..] == [LAST] && [LAST][1..] == [];
    assert LowerExpr(LAST.expression, none, base).Some?;
    assert LowerList([LAST], next, none, base, Some(loop), 1, Declared).Some?;
  }
}
