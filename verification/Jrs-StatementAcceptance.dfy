/** Which statements and scripts the register lowering accepts. */
module StatementAcceptance {
  import opened Wrappers
  import opened Source
  import opened RegisterTypes
  import opened TypeInference
  import opened ExpressionLowering
  import opened RegisterExpressions
  import opened StatementLowering
  import opened RegisterStatements
  import opened ExpressionAcceptance

  /** What of the statement can be reached is sound, and leaves no loop where there is none. */
  predicate Allowed(s: Stmt, b: Bindings, inside: bool) {
    match s
    case ExprStmt(e) => Sound(e, b)
    case If(condition, yes, no) =>
      Sound(condition, b) && Allowed(yes, b, inside) && (no.Some? ==> Allowed(no.value, b, inside))
    case Block(body) => ListAllowed(body, b, inside)
    case While(condition, body) => Sound(condition, b) && Allowed(body, b, true)
    case DoWhile(body, condition) => Sound(condition, b) && Allowed(body, b, true)
    case Break => inside
    case Continue => inside
    case Empty => true
  }

  predicate ListAllowed(body: seq<Stmt>, b: Bindings, inside: bool) {
    body == [] || (Allowed(body[0], b, inside) && (Abrupt(body[0]) || ListAllowed(body[1..], b, inside)))
  }

  /** How many registers what can be reached needs: a branch, a block and a loop keep a value. */
  function StmtRegisters(s: Stmt): (n: nat) {
    match s
    case ExprStmt(e) => Registers(e)
    case If(condition, yes, no) =>
      Most(Registers(condition), 1 + Most(StmtRegisters(yes), if no.Some? then StmtRegisters(no.value) else 0))
    case Block(body) => 1 + ListRegisters(body)
    case While(condition, body) => 1 + Most(Registers(condition), StmtRegisters(body))
    case DoWhile(body, condition) => 1 + Most(Registers(condition), StmtRegisters(body))
    case _ => 0
  }

  function ListRegisters(body: seq<Stmt>): (n: nat) {
    if body == [] then 0
    else if Abrupt(body[0]) then StmtRegisters(body[0])
    else Most(StmtRegisters(body[0]), ListRegisters(body[1..]))
  }

  lemma {:induction false} AllowedAlike(s: Stmt, b: Bindings, c: Bindings, inside: bool)
    requires SameShape(b, c)
    ensures Allowed(s, b, inside) <==> Allowed(s, c, inside)
    decreases s
  {
    hide SameShape, Sound;
    match s
    case ExprStmt(e) =>
      SoundAlike(e, b, c);
    case If(condition, yes, no) =>
      SoundAlike(condition, b, c);
      AllowedAlike(yes, b, c, inside);
      if no.Some? {
        AllowedAlike(no.value, b, c, inside);
      }
    case Block(body) =>
      ListAllowedAlike(body, b, c, inside);
    case While(condition, body) =>
      SoundAlike(condition, b, c);
      AllowedAlike(body, b, c, true);
    case DoWhile(body, condition) =>
      SoundAlike(condition, b, c);
      AllowedAlike(body, b, c, true);
    case _ =>
  }

  lemma {:induction false} ListAllowedAlike(body: seq<Stmt>, b: Bindings, c: Bindings, inside: bool)
    requires SameShape(b, c)
    ensures ListAllowed(body, b, inside) <==> ListAllowed(body, c, inside)
    decreases body
  {
    hide SameShape;
    if body != [] {
      AllowedAlike(body[0], b, c, inside);
      ListAllowedAlike(body[1..], b, c, inside);
    }
  }

  // ---------- whatever is accepted is allowed and has its registers ----------

  ghost predicate Initialized(b: Bindings) {
    forall n | n in b :: b[n].ty.Some?
  }

  lemma InitializedAlike(b: Bindings, c: Bindings)
    requires Initialized(b) && SameShape(b, c)
    ensures Initialized(c)
  {
    forall n | n in c ensures c[n].ty.Some? {
      assert Alike(b[n], c[n]);
    }
  }

  lemma InitializedRises(b: Bindings, c: Bindings)
    requires Initialized(b) && AllRise(b, c)
    ensures SameShape(b, c)
  {
    forall n | n in b ensures Alike(b[n], c[n]) {
      assert Rises(b[n], c[n]);
    }
  }

  /** It is allowed from the bindings `b`, the registers from `base` on hold it, and `after` has the shape
      of `b`. */
  ghost predicate Passes(s: Stmt, b: Bindings, base: nat, inside: bool, after: Bindings) {
    Allowed(s, b, inside) && base + StmtRegisters(s) <= LAST_REGISTER && SameShape(b, after) && Initialized(after)
  }

  lemma {:induction false} AcceptedIsAllowed(s: Stmt, at: nat, b: Bindings, base: nat, loop: Option<Loop>,
      completion: Option<nat>, mode: Head)
    requires base <= LAST_REGISTER && Initialized(b) && LowerStmt(s, at, b, base, loop, completion, mode).Some?
    ensures Passes(s, b, base, loop.Some?, LowerStmt(s, at, b, base, loop, completion, mode).value.after)
    decreases s, 1
  {
    hide LowerExpr, FixedPoint, MergeBindings, LowerLoop, LowerLoopOnce, IfCode, BranchCode, BlockCode, LeaveCode, Fits,
      Initialized, Sound, Registers;
    match s
    case ExprStmt(e) =>
      AcceptedIsSound(e, b, base);
      LoweredBinds(e, b, base);
      InitializedAlike(b, LowerExpr(e, b, base).value.after);
    case If(_, _, _) =>
      AcceptedIf(s, at, b, base, loop, mode);
    case Block(body) =>
      AcceptedList(body, at + 1, b, base + 1, loop, base, mode);
    case While(_, _) =>
      AcceptedLoop(s, at, b, base, loop, completion, mode);
    case DoWhile(_, _) =>
      AcceptedLoop(s, at, b, base, loop, completion, mode);
    case _ =>
  }

  lemma {:induction false} AcceptedIf(s: Stmt, at: nat, b: Bindings, base: nat, loop: Option<Loop>, mode: Head)
    requires s.If? && base <= LAST_REGISTER && Initialized(b) && LowerIf(s, at, b, base, loop, mode).Some?
    ensures Passes(s, b, base, loop.Some?, LowerIf(s, at, b, base, loop, mode).value.after)
    decreases s, 0
  {
    hide LowerExpr, MergeBindings, IfCode, BranchCode, LowerStmt, StmtLen, ExprLen, JoinFlow, SameShape, Initialized,
      Sound, Registers, Allowed, StmtRegisters, Passes;
    AcceptedIsSound(s.condition, b, base);
    LoweredBinds(s.condition, b, base);
    var c := LowerExpr(s.condition, b, base).value.after;
    InitializedAlike(b, c);
    var start := at + ExprLen(s.condition) + 3;
    var other := start + StmtLen(s.yes, true) + (if Abrupt(s.yes) then 0 else 1) + 2;
    AcceptedIsAllowed(s.yes, start, c, base + 1, loop, Some(base), mode);
    var yes := LowerStmt(s.yes, start, c, base + 1, loop, Some(base), mode).value.after;
    var no := c;
    if s.no.Some? {
      AcceptedIsAllowed(s.no.value, other, c, base + 1, loop, Some(base), mode);
      no := LowerStmt(s.no.value, other, c, base + 1, loop, Some(base), mode).value.after;
    }
    PassesIf(s, b, c, yes, no, base, loop.Some?, LowerIf(s, at, b, base, loop, mode).value.after);
  }

  lemma PassesIf(s: Stmt, b: Bindings, c: Bindings, yes: Bindings, no: Bindings, base: nat, inside: bool,
      after: Bindings)
    requires s.If? && Sound(s.condition, b) && base + Most(Registers(s.condition), 1) <= LAST_REGISTER
    requires SameShape(b, c) && Passes(s.yes, c, base + 1, inside, yes)
    requires if s.no.Some? then Passes(s.no.value, c, base + 1, inside, no) else no == c && Initialized(c)
    requires after == yes || after == no || MergeBindings(yes, no) == Some(after)
    ensures Passes(s, b, base, inside, after)
  {
    hide Sound, Registers, Initialized, SameShape, MergeBindings;
    AllowedAlike(s.yes, b, c, inside);
    if s.no.Some? {
      AllowedAlike(s.no.value, b, c, inside);
    }
    SelfShape(c);
    ShapeThen(b, c, yes);
    ShapeThen(b, c, no);
    if MergeBindings(yes, no) == Some(after) {
      MergeKeepsShape(yes, no);
      ShapeThen(b, yes, after);
      InitializedAlike(yes, after);
    }
  }

  lemma SelfShape(b: Bindings)
    ensures SameShape(b, b)
  {
  }

  lemma {:induction false} AcceptedList(body: seq<Stmt>, at: nat, b: Bindings, base: nat, loop: Option<Loop>,
      result: nat, mode: Head)
    requires base <= LAST_REGISTER && Initialized(b) && LowerList(body, at, b, base, loop, result, mode).Some?
    ensures ListAllowed(body, b, loop.Some?) && base + ListRegisters(body) <= LAST_REGISTER
    ensures var after := LowerList(body, at, b, base, loop, result, mode).value.after;
      SameShape(b, after) && Initialized(after)
    decreases body, 1
  {
    hide LowerStmt, KeepCode, Allowed, StmtRegisters, SameShape, Initialized;
    SelfShape(b);
    if body != [] {
      AcceptedIsAllowed(body[0], at, b, base, loop, Some(result), mode);
      var first := LowerStmt(body[0], at, b, base, loop, Some(result), mode).value;
      if !first.flow.FlowAbrupt? {
        var keep := KeepCode(result, !first.flow.FlowValue?);
        var next := at + |first.code| + |keep|;
        AcceptedList(body[1..], next, first.after, base, loop, result, mode);
        ListAllowedAlike(body[1..], b, first.after, loop.Some?);
        ShapeThen(b, first.after, LowerList(body[1..], next, first.after, base, loop, result, mode).value.after);
      }
    }
  }

  lemma {:induction false} AcceptedLoop(s: Stmt, at: nat, b: Bindings, base: nat, loop: Option<Loop>,
      completion: Option<nat>, mode: Head)
    requires (s.While? || s.DoWhile?) && base <= LAST_REGISTER && Initialized(b)
    requires LowerStmt(s, at, b, base, loop, completion, mode).Some?
    ensures Passes(s, b, base, loop.Some?, LowerStmt(s, at, b, base, loop, completion, mode).value.after)
    decreases s, 0
  {
    hide LowerStmt, LowerLoopOnce, LoopCode, LowerExpr, FixedPoint, Fits, Initialized, SameShape, Sound, Registers,
      AllRise;
    var tried := LoopLowers(s, at, b, base, loop, completion, mode);
    OnceLowers(s, at, b, base, tried);
    var head := FixedPoint(s.body, b, tried.Widened?);
    InitializedRises(b, head);
    InitializedAlike(b, head);
    AcceptedIsSound(s.condition, head, base + 1);
    SoundAlike(s.condition, b, head);
    AcceptedIsAllowed(s.body, BodyAt(s, at), head, base + 1, Some(LoopOf(s, at, base, head)), None, tried);
    AllowedAlike(s.body, b, head, true);
  }
}
