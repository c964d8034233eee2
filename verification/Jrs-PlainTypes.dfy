/** Where no binding is of a type of objects, nothing the lowering tracks is. */
module PlainTypes {
  import opened Wrappers
  import opened Source
  import opened RegisterTypes
  import opened TypeInference
  import opened ExpressionLowering
  import opened StatementLowering
  import opened RegisterStatements
  import opened ExpressionAcceptance

  // ---------- inference ----------

  lemma {:induction false} TypePlain(e: Expr, b: Bindings)
    requires Plain(b) && ExprType(e, b).Some?
    ensures ConvertsToPrimitive(ExprType(e, b).value)
  {
    match e
    case Literal(_) =>
    case Name(_) =>
    case Assign(_, _, right) =>
      TypePlain(right, b);
    case BinaryExpr(op, left, right) =>
      TypePlain(left, b);
      TypePlain(right, b);
    case Conditional(_, yes, no) =>
      TypePlain(yes, b);
      TypePlain(no, b);
    case Sequence(_, right) =>
      TypePlain(right, b);
  }

  lemma ObservePlain(b: Bindings, name: string, t: RegType)
    requires Plain(b) && ConvertsToPrimitive(t)
    ensures Plain(Observe(b, name, t))
  {
    hide ConvertsToPrimitive, Merge;
    if name in b && b[name].ty.Some? {
      MergeConverts(b[name].ty.value, t);
    }
  }

  lemma {:induction false} InferPlain(e: Expr, b: Bindings)
    requires Plain(b)
    ensures Plain(InferExpr(e, b))
  {
    hide Plain, Observe, ExprType;
    match e
    case Literal(_) =>
    case Name(_) =>
    case Assign(name, operator, right) =>
      InferPlain(right, b);
      var c := InferExpr(right, b);
      var t := if operator.None? then ExprType(right, c) else None;
      if t.Some? {
        TypePlain(right, c);
      }
      ObservePlain(c, name, if t.Some? then t.value else TUnknown);
    case BinaryExpr(_, left, right) =>
      InferPlain(left, b);
      InferPlain(right, InferExpr(left, b));
    case Conditional(condition, yes, no) =>
      InferPlain(condition, b);
      InferPlain(yes, InferExpr(condition, b));
      InferPlain(no, InferExpr(yes, InferExpr(condition, b)));
    case Sequence(left, right) =>
      InferPlain(left, b);
      InferPlain(right, InferExpr(left, b));
  }

  lemma {:induction false} PassPlain(s: Stmt, b: Bindings, widen: bool)
    requires Plain(b)
    ensures Plain(InferStmt(s, b, widen))
    decreases s
  {
    hide Plain, InferExpr;
    match s
    case ExprStmt(e) =>
      InferPlain(e, b);
    case If(_, yes, no) =>
      PassPlain(yes, b, widen);
      if no.Some? {
        PassPlain(no.value, InferStmt(yes, b, widen), widen);
      }
    case Block(body) =>
      PassListPlain(body, b, widen);
    case While(_, body) =>
      PassPlain(body, b, widen);
    case DoWhile(body, _) =>
      PassPlain(body, b, widen);
    case _ =>
  }

  lemma {:induction false} PassListPlain(body: seq<Stmt>, b: Bindings, widen: bool)
    requires Plain(b)
    ensures Plain(InferList(body, b, widen))
    decreases body
  {
    hide Plain;
    if body != [] {
      PassPlain(body[0], b, widen);
      PassListPlain(body[1..], InferStmt(body[0], b, widen), widen);
    }
  }

  lemma {:induction false} FixedPointPlain(s: Stmt, b: Bindings, widen: bool)
    requires Plain(b)
    ensures Plain(FixedPoint(s, b, widen))
    decreases 4 * |b| - Ranks(b)
  {
    hide Plain, InferStmt, Ranks;
    var next := InferStmt(s, b, widen);
    if next != b {
      PassRises(s, b, widen);
      PassPlain(s, b, widen);
      FixedPointPlain(s, next, widen);
    }
  }

  // ---------- lowering ----------

  ghost predicate PlainLowered(r: Lowered) {
    Plain(r.after) && ConvertsToPrimitive(r.ty)
  }

  lemma {:induction false} LoweredIsPlain(e: Expr, b: Bindings, base: nat)
    requires Plain(b) && LowerExpr(e, b, base).Some?
    ensures PlainLowered(LowerExpr(e, b, base).value)
  {
    hide LogicalCode, ChoiceCode, BinaryCode, CompoundCode, Select, SelectCompound, MergeBindings, Merge,
      ConvertsToPrimitive, Retype, Plain;
    match e
    case Literal(_) =>
      LeafIsPlain(e, b, base);
    case Name(_) =>
      LeafIsPlain(e, b, base);
    case Assign(name, operator, right) =>
      var at := if operator.None? then base else base + 1;
      LoweredIsPlain(right, b, at);
      var r := LowerExpr(right, b, at).value;
      if operator.Some? {
        SelectedIsPlain(operator.value, b[name].ty.value, r.ty, base, base + 1);
      }
      RetypePlain(r.after, name, LowerExpr(e, b, base).value.ty);
    case BinaryExpr(op, left, right) =>
      LoweredIsPlain(left, b, base);
      var l := LowerExpr(left, b, base).value;
      var at := if IsLogical(op) then base else base + 1;
      LoweredIsPlain(right, l.after, at);
      var r := LowerExpr(right, l.after, at).value;
      if IsLogical(op) {
        PlainMerge(l.after, r.after);
        MergeConverts(l.ty, r.ty);
      } else {
        SelectedIsPlain(op, l.ty, r.ty, base, base + 1);
      }
    case Conditional(condition, yes, no) =>
      LoweredIsPlain(condition, b, base);
      var c := LowerExpr(condition, b, base).value.after;
      LoweredIsPlain(yes, c, base);
      LoweredIsPlain(no, c, base);
      MergeConverts(LowerExpr(yes, c, base).value.ty, LowerExpr(no, c, base).value.ty);
    case Sequence(left, right) =>
      LoweredIsPlain(left, b, base);
      LoweredIsPlain(right, LowerExpr(left, b, base).value.after, base);
  }

  lemma LeafIsPlain(e: Expr, b: Bindings, base: nat)
    requires (e.Literal? || e.Name?) && Plain(b) && LowerExpr(e, b, base).Some?
    ensures PlainLowered(LowerExpr(e, b, base).value)
  {
  }

  lemma SelectedIsPlain(op: Binary, lt: RegType, rt: RegType, l: nat, r: nat)
    ensures Select(op, lt, rt, l, r).Some? ==> ConvertsToPrimitive(Select(op, lt, rt, l, r).value.ty)
    ensures SelectCompound(op, lt, rt, l, r).Some? ==> ConvertsToPrimitive(SelectCompound(op, lt, rt, l, r).value.ty)
  {
  }

  lemma RetypePlain(b: Bindings, name: string, ty: RegType)
    requires Plain(b) && ConvertsToPrimitive(ty) && name in b
    ensures Plain(Retype(b, name, ty))
  {
    hide ConvertsToPrimitive;
  }

  /** The bindings a statement leaves, and its value. */
  ghost predicate PlainOutcome(r: LoweredStmt) {
    Plain(r.after) && (r.flow.FlowValue? ==> ConvertsToPrimitive(r.flow.ty))
  }

  lemma {:induction false} StatementIsPlain(s: Stmt, at: nat, b: Bindings, base: nat, loop: Option<Loop>,
      completion: Option<nat>, mode: Head)
    requires Plain(b) && LowerStmt(s, at, b, base, loop, completion, mode).Some?
    ensures PlainOutcome(LowerStmt(s, at, b, base, loop, completion, mode).value)
    decreases s, 1
  {
    hide LowerExpr, FixedPoint, MergeBindings, LowerLoop, LowerLoopOnce, IfCode, BranchCode, BlockCode, LeaveCode, Fits,
      Plain, ConvertsToPrimitive;
    match s
    case ExprStmt(e) =>
      LoweredIsPlain(e, b, base);
    case If(_, _, _) =>
      IfIsPlain(s, at, b, base, loop, mode);
    case Block(body) =>
      ListIsPlain(body, at + 1, b, base + 1, loop, base, mode);
    case While(_, _) =>
      LoopIsPlain(s, at, b, base, loop, completion, mode);
    case DoWhile(_, _) =>
      LoopIsPlain(s, at, b, base, loop, completion, mode);
    case _ =>
  }

  lemma {:induction false} IfIsPlain(s: Stmt, at: nat, b: Bindings, base: nat, loop: Option<Loop>, mode: Head)
    requires s.If? && Plain(b) && LowerIf(s, at, b, base, loop, mode).Some?
    ensures PlainOutcome(LowerIf(s, at, b, base, loop, mode).value)
    decreases s, 0
  {
    hide LowerExpr, MergeBindings, IfCode, BranchCode, LowerStmt, StmtLen, ExprLen, Plain, ConvertsToPrimitive, Merge;
    LoweredIsPlain(s.condition, b, base);
    var c := LowerExpr(s.condition, b, base).value.after;
    var start := at + ExprLen(s.condition) + 3;
    var other := start + StmtLen(s.yes, true) + (if Abrupt(s.yes) then 0 else 1) + 2;
    StatementIsPlain(s.yes, start, c, base + 1, loop, Some(base), mode);
    var yes := LowerStmt(s.yes, start, c, base + 1, loop, Some(base), mode).value;
    var no := LoweredStmt([], FlowValue(TUndefined), c);
    UndefinedIsPlain();
    if s.no.Some? {
      StatementIsPlain(s.no.value, other, c, base + 1, loop, Some(base), mode);
      no := LowerStmt(s.no.value, other, c, base + 1, loop, Some(base), mode).value;
    }
    MeetPlain(yes, no);
  }

  lemma UndefinedIsPlain()
    ensures ConvertsToPrimitive(TUndefined)
  {
  }

  lemma MeetPlain(yes: LoweredStmt, no: LoweredStmt)
    requires PlainOutcome(yes) && PlainOutcome(no)
    ensures Join(yes, no).Some? ==> Plain(Join(yes, no).value)
    ensures var f := JoinFlow(yes.flow, no.flow); f.FlowValue? ==> ConvertsToPrimitive(f.ty)
  {
    hide MergeBindings, Plain, Merge, ConvertsToPrimitive;
    if MergeBindings(yes.after, no.after).Some? {
      PlainMerge(yes.after, no.after);
    }
    UndefinedIsPlain();
    if yes.flow.FlowValue? {
      MergeConverts(TUndefined, yes.flow.ty);
    }
    if no.flow.FlowValue? {
      MergeConverts(TUndefined, no.flow.ty);
    }
    if yes.flow.FlowValue? && no.flow.FlowValue? {
      MergeConverts(yes.flow.ty, no.flow.ty);
    }
  }

  lemma {:induction false} ListIsPlain(body: seq<Stmt>, at: nat, b: Bindings, base: nat, loop: Option<Loop>,
      result: nat, mode: Head)
    requires Plain(b) && LowerList(body, at, b, base, loop, result, mode).Some?
    ensures PlainOutcome(LowerList(body, at, b, base, loop, result, mode).value)
    decreases body, 1
  {
    hide LowerStmt, KeepCode, Plain, ConvertsToPrimitive;
    if body != [] {
      StatementIsPlain(body[0], at, b, base, loop, Some(result), mode);
      var first := LowerStmt(body[0], at, b, base, loop, Some(result), mode).value;
      if !first.flow.FlowAbrupt? {
        var keep := KeepCode(result, !first.flow.FlowValue?);
        ListIsPlain(body[1..], at + |first.code| + |keep|, first.after, base, loop, result, mode);
      }
    }
  }

  lemma {:induction false} LoopIsPlain(s: Stmt, at: nat, b: Bindings, base: nat, loop: Option<Loop>,
      completion: Option<nat>, mode: Head)
    requires (s.While? || s.DoWhile?) && Plain(b) && LowerStmt(s, at, b, base, loop, completion, mode).Some?
    ensures PlainOutcome(LowerStmt(s, at, b, base, loop, completion, mode).value)
    decreases s, 0
  {
    hide LowerStmt, LowerLoopOnce, LoopCode, LowerExpr, FixedPoint, Fits, Plain, ConvertsToPrimitive, AllRise, Merge;
    var tried := LoopLowers(s, at, b, base, loop, completion, mode);
    OnceLowers(s, at, b, base, tried);
    var head := FixedPoint(s.body, b, tried.Widened?);
    FixedPointPlain(s.body, b, tried.Widened?);
    var inner := Some(LoopOf(s, at, base, head));
    StatementIsPlain(s.body, BodyAt(s, at), head, base + 1, inner, None, tried);
    var flow := LowerStmt(s.body, BodyAt(s, at), head, base + 1, inner, None, tried).value.flow;
    LoopFlow(s, at, b, base, tried);
    UndefinedIsPlain();
    if flow.FlowValue? {
      MergeConverts(TUndefined, flow.ty);
    }
  }

  lemma LoopFlow(s: Stmt, at: nat, b: Bindings, base: nat, mode: Head)
    requires (s.While? || s.DoWhile?) && LowerLoopOnce(s, at, b, base, mode).Some?
    ensures var head := FixedPoint(s.body, b, mode.Widened?);
      var body := LowerStmt(s.body, BodyAt(s, at), head, base + 1, Some(LoopOf(s, at, base, head)), None, mode);
      body.Some? && LowerLoopOnce(s, at, b, base, mode).value.flow == FlowValue(LoopType(s, body.value.flow))
  {
    hide LowerExpr, LowerStmt, Fits, FixedPoint, LoopCode, BodyAt, LoopOf, LoopType;
  }
}
