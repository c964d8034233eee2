/** Without objects and without undefined, what is allowed is accepted. */
module ScriptAcceptance {
  import opened Wrappers
  import opened Source
  import opened RegisterTypes
  import opened TypeInference
  import opened ExpressionLowering
  import opened StatementLowering
  import opened RegisterStatements
  import opened ScriptLowering
  import opened ExpressionAcceptance
  import opened InferredTypes
  import opened LoweredTypes
  import opened StatementAcceptance
  import opened PlainTypes

  /** The statement is simple, and `h` takes in the bindings and every assignment of it. */
  ghost predicate Suits(s: Stmt, b: Bindings, h: Bindings) {
    SimpleStmt(s) && StmtBound(s, b.Keys) && Under(b, h) && Closed(s, h)
  }

  ghost predicate ListSuits(body: seq<Stmt>, b: Bindings, h: Bindings) {
    SimpleList(body) && ListBound(body, b.Keys) && Under(b, h) && ListClosed(body, h)
  }

  /** The loop around, if there is one, has `h` at its head. */
  ghost predicate Around(h: Bindings, loop: Option<Loop>, mode: Head) {
    loop.Some? ==> mode.Widened? && loop.value.head == h
  }

  /** It is accepted, and the bindings stay below `h`. */
  ghost predicate Fine(r: Option<LoweredStmt>, h: Bindings) {
    r.Some? && Under(r.value.after, h)
  }

  lemma UnderAlike(b: Bindings, c: Bindings, h: Bindings)
    requires Under(b, h) && Under(c, h)
    ensures SameShape(b, c)
  {
    forall n | n in b ensures Alike(b[n], c[n]) {
      assert BindingBelow(b[n], h[n]) && BindingBelow(c[n], h[n]);
    }
  }

  // ---------- expressions ----------

  lemma WholeAccepted(e: Expr, b: Bindings, h: Bindings, base: nat)
    requires SimpleWhole(e) && ExprBound(e, b.Keys) && Under(b, h) && InferExpr(e, h) == h
    requires Sound(e, b) && base + Registers(e) <= LAST_REGISTER
    ensures LowerExpr(e, b, base).Some? && Under(LowerExpr(e, b, base).value.after, h)
  {
    hide LowerExpr, Sound, Registers, InferExpr, AllBelow, Tidy, Plain, ConvertsToPrimitive, SameShape, ExprType;
    TidyIsPlain(b);
    if Simple(e) {
      SimpleHasPureArms(e);
      SoundIsAccepted(e, b, base);
      LoweredFollows(e, b, h, base);
    } else {
      SimpleHasPureArms(e.right);
      SoundIsAccepted(e, b, base);
      CompoundFollows(e, b, h, base);
    }
  }

  /** A condition leaves the bindings alone. */
  lemma ConditionAccepted(e: Expr, b: Bindings, base: nat)
    requires Simple(e) && Pure(e) && Tidy(b) && Sound(e, b) && base + Registers(e) <= LAST_REGISTER
    ensures LowerExpr(e, b, base).Some? && LowerExpr(e, b, base).value.after == b
  {
    hide LowerExpr, Sound, Registers, Tidy, Plain;
    TidyIsPlain(b);
    SimpleHasPureArms(e);
    SoundIsAccepted(e, b, base);
  }

  // ---------- statements ----------

  lemma {:induction false} AllowedIsAccepted(s: Stmt, at: nat, b: Bindings, h: Bindings, base: nat,
      loop: Option<Loop>, completion: Option<nat>, mode: Head)
    requires Suits(s, b, h) && Around(h, loop, mode)
    requires Allowed(s, b, loop.Some?) && base + StmtRegisters(s) <= LAST_REGISTER
    ensures Fine(LowerStmt(s, at, b, base, loop, completion, mode), h)
    decreases s, 2
  {
    hide LowerExpr, FixedPoint, LowerLoop, LowerLoopOnce, LowerIf, LowerList, BlockCode, LeaveCode, Sound, Registers,
      AllBelow, Tidy, InferExpr, ExprBound, StmtLen, Abrupt, HasValue, Fits;
    match s
    case ExprStmt(e) =>
      WholeAccepted(e, b, h, base);
    case If(_, _, _) =>
      AllowedIf(s, at, b, h, base, loop, mode);
    case Block(body) =>
      AllowedList(body, at + 1, b, h, base + 1, loop, base, mode);
    case While(_, _) =>
      AllowedLoop(s, at, b, h, base, mode);
    case DoWhile(_, _) =>
      AllowedLoop(s, at, b, h, base, mode);
    case Empty =>
    case _ =>
      FitsIsOrder(b, h);
  }

  lemma {:induction false} AllowedIf(s: Stmt, at: nat, b: Bindings, h: Bindings, base: nat, loop: Option<Loop>,
      mode: Head)
    requires s.If? && Suits(s, b, h) && Around(h, loop, mode)
    requires Allowed(s, b, loop.Some?) && base + StmtRegisters(s) <= LAST_REGISTER
    ensures Fine(LowerIf(s, at, b, base, loop, mode), h)
    decreases s, 1
  {
    hide LowerExpr, LowerStmt, LowerIf, MergeBindings, StmtLen, ExprLen, Sound, Registers, AllBelow, Tidy, Closed,
      Abrupt, Fine;
    ConditionAccepted(s.condition, b, base);
    ClosedIf(s, h);
    var start := at + ExprLen(s.condition) + 3;
    var other := start + StmtLen(s.yes, true) + (if Abrupt(s.yes) then 0 else 1) + 2;
    AllowedIsAccepted(s.yes, start, b, h, base + 1, loop, Some(base), mode);
    if s.no.Some? {
      AllowedIsAccepted(s.no.value, other, b, h, base + 1, loop, Some(base), mode);
    }
    Branches(s, at, b, h, base, loop, mode);
  }

  /** Two branches that are fine meet. */
  lemma Branches(s: Stmt, at: nat, b: Bindings, h: Bindings, base: nat, loop: Option<Loop>, mode: Head)
    requires s.If? && Under(b, h) && base + 1 <= LAST_REGISTER
    requires LowerExpr(s.condition, b, base).Some? && LowerExpr(s.condition, b, base).value.after == b
    requires var start := at + ExprLen(s.condition) + 3;
      var other := start + StmtLen(s.yes, true) + (if Abrupt(s.yes) then 0 else 1) + 2;
      && Fine(LowerStmt(s.yes, start, b, base + 1, loop, Some(base), mode), h)
      && (s.no.Some? ==> Fine(LowerStmt(s.no.value, other, b, base + 1, loop, Some(base), mode), h))
    ensures Fine(LowerIf(s, at, b, base, loop, mode), h)
  {
    hide LowerExpr, LowerStmt, MergeBindings, StmtLen, ExprLen, Abrupt, IfCode, BranchCode, JoinFlow, Under;
    var start := at + ExprLen(s.condition) + 3;
    var other := start + StmtLen(s.yes, true) + (if Abrupt(s.yes) then 0 else 1) + 2;
    var yes := LowerStmt(s.yes, start, b, base + 1, loop, Some(base), mode).value;
    var no := if s.no.None? then LoweredStmt([], FlowValue(TUndefined), b)
      else LowerStmt(s.no.value, other, b, base + 1, loop, Some(base), mode).value;
    Meet(yes, no, h);
  }

  lemma Meet(yes: LoweredStmt, no: LoweredStmt, h: Bindings)
    requires Under(yes.after, h) && Under(no.after, h)
    ensures Join(yes, no).Some? && Under(Join(yes, no).value, h)
  {
    hide MergeBindings, Under, SameShape;
    UnderAlike(yes.after, no.after, h);
    MergeSame(yes.after, no.after);
    MergeUnder(yes.after, no.after, h);
  }

  lemma {:induction false} AllowedList(body: seq<Stmt>, at: nat, b: Bindings, h: Bindings, base: nat,
      loop: Option<Loop>, result: nat, mode: Head)
    requires ListSuits(body, b, h) && Around(h, loop, mode)
    requires ListAllowed(body, b, loop.Some?) && base + ListRegisters(body) <= LAST_REGISTER
    ensures Fine(LowerList(body, at, b, base, loop, result, mode), h)
    decreases body, 1
  {
    hide LowerStmt, LowerList, KeepCode, Allowed, StmtRegisters, Suits, ListSuits, Under, SameShape, Abrupt;
    ListIsUnder(body, b, h);
    if body == [] {
      NoList(body, at, b, base, loop, result, mode);
    } else {
      AllowedIsAccepted(body[0], at, b, h, base, loop, Some(result), mode);
      var first := LowerStmt(body[0], at, b, base, loop, Some(result), mode).value;
      if !first.flow.FlowAbrupt? {
        var keep := KeepCode(result, !first.flow.FlowValue?);
        UnderAlike(b, first.after, h);
        ListAllowedAlike(body[1..], b, first.after, loop.Some?);
        ListGoesOn(body, b, first.after, h);
        AllowedList(body[1..], at + |first.code| + |keep|, first.after, h, base, loop, result, mode);
      }
      FirstAndRest(body, at, b, h, base, loop, result, mode);
    }
  }

  lemma NoList(body: seq<Stmt>, at: nat, b: Bindings, base: nat, loop: Option<Loop>, result: nat, mode: Head)
    requires body == []
    ensures LowerList(body, at, b, base, loop, result, mode) == Some(LoweredStmt([], FlowEmpty, b))
  {
  }

  lemma FirstAndRest(body: seq<Stmt>, at: nat, b: Bindings, h: Bindings, base: nat, loop: Option<Loop>, result: nat,
      mode: Head)
    requires body != [] && Fine(LowerStmt(body[0], at, b, base, loop, Some(result), mode), h)
    requires var first := LowerStmt(body[0], at, b, base, loop, Some(result), mode).value;
      var keep := KeepCode(result, !first.flow.FlowValue?);
      !first.flow.FlowAbrupt? ==>
        Fine(LowerList(body[1..], at + |first.code| + |keep|, first.after, base, loop, result, mode), h)
    ensures Fine(LowerList(body, at, b, base, loop, result, mode), h)
  {
    hide LowerStmt, KeepCode, Under, StmtLen, ListLen, Abrupt, ListAbrupt;
  }

  lemma ListIsUnder(body: seq<Stmt>, b: Bindings, h: Bindings)
    requires ListSuits(body, b, h)
    ensures Under(b, h) && (body != [] ==> Suits(body[0], b, h))
  {
    hide Closed, ListClosed, Under;
    if body != [] {
      ClosedFirst(body, h);
    }
  }

  lemma ListGoesOn(body: seq<Stmt>, b: Bindings, c: Bindings, h: Bindings)
    requires body != [] && ListSuits(body, b, h) && Under(c, h)
    ensures ListSuits(body[1..], c, h)
  {
    hide Closed, ListClosed, Tidy;
    ClosedFirst(body, h);
  }

  // ---------- loops ----------

  lemma {:induction false} StillWithout(s: Stmt, b: Bindings)
    ensures InferStmt(s, b, false) == b
    decreases s
  {
    match s
    case If(_, yes, no) =>
      StillWithout(yes, b);
      if no.Some? {
        StillWithout(no.value, b);
      }
    case Block(body) =>
      ListStillWithout(body, b);
    case While(_, body) =>
      StillWithout(body, b);
    case DoWhile(body, _) =>
      StillWithout(body, b);
    case _ =>
  }

  lemma {:induction false} ListStillWithout(body: seq<Stmt>, b: Bindings)
    ensures InferList(body, b, false) == b
    decreases body
  {
    if body != [] {
      StillWithout(body[0], b);
      ListStillWithout(body[1..], b);
    }
  }

  lemma {:induction false} AllowedLoop(s: Stmt, at: nat, b: Bindings, h: Bindings, base: nat, mode: Head)
    requires (s.While? || s.DoWhile?) && Suits(s, b, h)
    requires Allowed(s, b, true) && base + StmtRegisters(s) <= LAST_REGISTER
    ensures Fine(LowerLoop(s, at, b, base, mode), h)
    decreases s, 1
  {
    hide LowerLoopOnce, Suits, Allowed, StmtRegisters, Fine;
    AllowedWidened(s, at, b, h, base);
    if mode.Declared? && LowerLoopOnce(s, at, b, base, Declared).Some? {
      DeclaredIsFine(s, at, b, h, base);
    }
    FineIsSome(LowerLoopOnce(s, at, b, base, Widened), h);
  }

  lemma FineIsSome(r: Option<LoweredStmt>, h: Bindings)
    requires Fine(r, h)
    ensures r.Some?
  {
  }

  /** The first attempt leaves the types as they are. */
  lemma DeclaredIsFine(s: Stmt, at: nat, b: Bindings, h: Bindings, base: nat)
    requires (s.While? || s.DoWhile?) && Suits(s, b, h) && LowerLoopOnce(s, at, b, base, Declared).Some?
    ensures Fine(LowerLoopOnce(s, at, b, base, Declared), h)
  {
    hide LowerLoopOnce, LoopLowered, LoopCode, Under, Closed;
    StillWithout(s.body, b);
    OnceLowers(s, at, b, base, Declared);
  }

  /** The second attempt has at its head the least types that take in every assignment, and so what is
      tracked in the body stays below them. */
  lemma {:induction false} AllowedWidened(s: Stmt, at: nat, b: Bindings, h: Bindings, base: nat)
    requires (s.While? || s.DoWhile?) && Suits(s, b, h)
    requires Allowed(s, b, true) && base + StmtRegisters(s) <= LAST_REGISTER
    ensures Fine(LowerLoopOnce(s, at, b, base, Widened), h)
    decreases s, 0
  {
    hide LowerExpr, LowerStmt, Fits, FixedPoint, LoopCode, BodyAt, AllBelow, Tidy, Sound, Registers, SameShape,
      InferStmt, Alike;
    var head := FixedPoint(s.body, b, true);
    FixedPointSettled(s.body, b);
    ClosedLoop(s, h);
    FixedPointIsLeast(s.body, b, h);
    BelowSelf(head);
    UnderAlike(b, head, head);
    SoundAlike(s.condition, b, head);
    ConditionAccepted(s.condition, head, base + 1);
    AllowedAlike(s.body, b, head, true);
    var loop := LoopOf(s, at, base, head);
    AllowedIsAccepted(s.body, BodyAt(s, at), head, head, base + 1, Some(loop), None, Widened);
    FitsIsOrder(LowerStmt(s.body, BodyAt(s, at), head, base + 1, Some(loop), None, Widened).value.after, head);
  }

  lemma ClosedLoop(s: Stmt, h: Bindings)
    requires (s.While? || s.DoWhile?) && Closed(s, h)
    ensures Closed(s.body, h)
  {
  }

  lemma BelowSelf(b: Bindings)
    ensures AllBelow(b, b)
  {
    forall n | n in b ensures BindingBelow(b[n], b[n]) {
      if b[n].ty.Some? {
        MergeIsLeastUpperBound(b[n].ty.value, b[n].ty.value, b[n].ty.value);
      }
    }
  }

  // ---------- scripts ----------

  /** The bindings with every type unknown. */
  function Loosest(b: Bindings): (h: Bindings)
    ensures h.Keys == b.Keys
  {
    map n | n in b :: b[n].(ty := Some(TUnknown))
  }

  ghost predicate Loose(h: Bindings) {
    forall n | n in h :: h[n].ty == Some(TUnknown)
  }

  lemma {:induction false} LooseInfers(e: Expr, h: Bindings)
    requires Loose(h)
    ensures InferExpr(e, h) == h
  {
    hide ExprType;
    match e
    case Literal(_) =>
    case Name(_) =>
    case Assign(name, _, right) =>
      LooseInfers(right, h);
      if name in h {
        assert h[name] == h[name].(ty := Some(TUnknown));
      }
    case BinaryExpr(_, left, right) =>
      LooseInfers(left, h);
      LooseInfers(right, h);
    case Conditional(condition, yes, no) =>
      LooseInfers(condition, h);
      LooseInfers(yes, h);
      LooseInfers(no, h);
    case Sequence(left, right) =>
      LooseInfers(left, h);
      LooseInfers(right, h);
  }

  lemma {:induction false} LooseCloses(s: Stmt, h: Bindings)
    requires Loose(h)
    ensures Closed(s, h)
    decreases s
  {
    hide Loose, InferExpr;
    match s
    case ExprStmt(e) =>
      LooseInfers(e, h);
    case If(_, yes, no) =>
      LooseCloses(yes, h);
      if no.Some? {
        LooseCloses(no.value, h);
      }
    case Block(body) =>
      LooseListCloses(body, h);
    case While(_, body) =>
      LooseCloses(body, h);
    case DoWhile(body, _) =>
      LooseCloses(body, h);
    case _ =>
  }

  lemma {:induction false} LooseListCloses(body: seq<Stmt>, h: Bindings)
    requires Loose(h)
    ensures ListClosed(body, h)
    decreases body
  {
    hide Loose;
    if body != [] {
      LooseCloses(body[0], h);
      LooseListCloses(body[1..], h);
    }
  }

  lemma {:induction false} BodyAccepted(program: seq<Stmt>, at: nat, b: Bindings, h: Bindings, base: nat, result: nat)
    requires ListSuits(program, b, h)
    requires ListAllowed(program, b, false) && base + ListRegisters(program) <= LAST_REGISTER
    ensures LowerBody(program, at, b, base, result).Some?
    decreases program
  {
    hide LowerStmt, KeepCode, Allowed, StmtRegisters, Suits, ListSuits, Under, SameShape, Abrupt;
    ListIsUnder(program, b, h);
    if program != [] {
      AllowedIsAccepted(program[0], at + 1, b, h, base, None, None, Declared);
      var first := LowerStmt(program[0], at + 1, b, base, None, None, Declared).value;
      if !first.flow.FlowAbrupt? {
        var keep := KeepCode(result, !first.flow.FlowValue?);
        UnderAlike(b, first.after, h);
        ListAllowedAlike(program[1..], b, first.after, false);
        ListGoesOn(program, b, first.after, h);
        BodyAccepted(program[1..], at + 1 + |first.code| + |keep|, first.after, h, base, result);
      }
    }
  }

  lemma {:induction false} BodyAllowed(program: seq<Stmt>, at: nat, b: Bindings, base: nat, result: nat)
    requires base <= LAST_REGISTER && Initialized(b) && LowerBody(program, at, b, base, result).Some?
    ensures ListAllowed(program, b, false) && base + ListRegisters(program) <= LAST_REGISTER
    decreases program
  {
    hide LowerStmt, KeepCode, Allowed, StmtRegisters, SameShape, Initialized, Abrupt;
    if program != [] {
      AcceptedIsAllowed(program[0], at + 1, b, base, None, None, Declared);
      var first := LowerStmt(program[0], at + 1, b, base, None, None, Declared).value;
      if !first.flow.FlowAbrupt? {
        var keep := KeepCode(result, !first.flow.FlowValue?);
        BodyAllowed(program[1..], at + 1 + |first.code| + |keep|, first.after, base, result);
        ListAllowedAlike(program[1..], b, first.after, false);
      }
    }
  }

  lemma {:induction false} BodyIsPlain(program: seq<Stmt>, at: nat, b: Bindings, base: nat, result: nat, ty: RegType)
    requires Plain(b) && ConvertsToPrimitive(ty)
    ensures ConvertsToPrimitive(BodyType(program, at, b, base, result, ty))
    decreases program
  {
    hide LowerStmt, KeepCode, Plain, ConvertsToPrimitive;
    if program != [] {
      var r := LowerStmt(program[0], at + 1, b, base, None, None, Declared);
      if r.Some? && !r.value.flow.FlowAbrupt? {
        StatementIsPlain(program[0], at + 1, b, base, None, None, Declared);
        var keep := KeepCode(result, !r.value.flow.FlowValue?);
        BodyIsPlain(program[1..], at + 1 + |r.value.code| + |keep|, r.value.after, base, result,
            if r.value.flow.FlowValue? then r.value.flow.ty else ty);
      }
    }
  }

  /** With every binding initialized, a script that is accepted is allowed and has its registers, and its
      value is no built-in function. */
  lemma ScriptIsAllowed(program: seq<Stmt>, b: Bindings, base: nat)
    requires Initialized(b) && RegisterScript(program, b, base).Some?
    ensures !Idle(program) && ListAllowed(program, b, false)
    ensures base + 1 + ListRegisters(program) <= LAST_REGISTER
    ensures NatureOf(BodyType(program, 2, b, base + 1, base, TUndefined)) != Native
  {
    hide LowerBody, BodyType, ListAllowed, ListRegisters, Initialized;
    BodyAllowed(program, 2, b, base + 1, base);
  }

  /** Which scripts the register compiler takes: those that say something, assign what may be assigned,
      leave no loop where there is none, and have registers. */
  lemma AcceptedScripts(program: seq<Stmt>, b: Bindings, base: nat)
    requires SimpleList(program) && ListBound(program, b.Keys) && Tidy(b)
    ensures RegisterScript(program, b, base).Some? <==>
      && !Idle(program) && ListAllowed(program, b, false)
      && base + 1 + ListRegisters(program) <= LAST_REGISTER
  {
    hide LowerBody, BodyType, ListAllowed, ListRegisters, SimpleList, ListBound, ListClosed, Idle, Settled;
    if RegisterScript(program, b, base).Some? {
      ScriptIsAllowed(program, b, base);
    } else if ListAllowed(program, b, false) && base + 1 + ListRegisters(program) <= LAST_REGISTER {
      var h := Loosest(b);
      LoosestIsAbove(b);
      LooseListCloses(program, h);
      BodyAccepted(program, 2, b, h, base + 1, base);
      TidyIsPlain(b);
      BodyIsPlain(program, 2, b, base + 1, base, TUndefined);
    }
  }

  lemma LoosestIsAbove(b: Bindings)
    requires Tidy(b)
    ensures Under(b, Loosest(b)) && Loose(Loosest(b))
  {
    var h := Loosest(b);
    forall n | n in b ensures BindingBelow(b[n], h[n]) {
    }
  }
}
