/** Scripts that are allowed and refused all the same: one for each thing a simple script leaves out. */
module AcceptanceLimits {
  import opened Wrappers
  import opened Source
  import opened RegisterTypes
  import opened TypeInference
  import opened ExpressionLowering
  import opened StatementLowering
  import RegisterMachine
  import opened RegisterExpressions
  import opened ExpressionAcceptance
  import opened StatementAcceptance
  import opened ScriptAcceptance

  function Set(x: string, value: Value): (e: Expr) {
    Assign(x, None, Literal(value))
  }

  lemma SetLowers(x: string, value: Value, b: Bindings, base: nat)
    requires Assignable(b, x)
    ensures Sound(Set(x, value), b) && Registers(Set(x, value)) == 0
    ensures LowerExpr(Set(x, value), b, base).Some?
    ensures LowerExpr(Set(x, value), b, base).value.ty == TypeOf(value)
    ensures LowerExpr(Set(x, value), b, base).value.after == Retype(b, x, TypeOf(value))
  {
    assert LowerExpr(Literal(value), b, base) == Some(Lowered([RegisterMachine.Lda(value)], TypeOf(value), b));
  }

  /** Assignments in the arms of a conditional that leave different types. */
  function SettingArms(x: string): (e: Expr) {
    Conditional(Literal(Boolean(true)), Set(x, Number(0)), Set(x, Null))
  }

  lemma ArmsAreRefused(x: string, b: Bindings, base: nat)
    requires Assignable(b, x)
    ensures Sound(SettingArms(x), b) && LowerExpr(SettingArms(x), b, base).None?
  {
    hide ChoiceCode, Set;
    SetLowers(x, Number(0), b, base);
    SetLowers(x, Null, b, base);
    var y, n := Retype(b, x, TNumber), Retype(b, x, TNull);
    assert y[x] != n[x];
    var c := Literal(Boolean(true));
    assert Sound(c, b) && LowerExpr(c, b, base).value.after == b;
  }

  /** A loop that assigns in its condition. */
  function SettingLoop(x: string): (s: Stmt) {
    While(Set(x, Null), Empty)
  }

  lemma ConditionIsRefused(x: string, at: nat, b: Bindings, base: nat, mode: Head)
    requires Assignable(b, x) && b[x].ty == Some(TNumber)
    ensures Allowed(SettingLoop(x), b, false) && LowerLoop(SettingLoop(x), at, b, base, mode).None?
  {
    hide LoopCode, Set, LowerExpr, FixedPoint, Fits, LowerStmt;
    SetLowers(x, Null, b, base + 1);
    assert Retype(b, x, TNull)[x] != b[x];
    NothingInferred(b, true);
    NothingInferred(b, false);
    assert Allowed(Empty, b, true);
    assert LowerLoopOnce(SettingLoop(x), at, b, base, Declared).None?;
    assert LowerLoopOnce(SettingLoop(x), at, b, base, Widened).None?;
  }

  lemma NothingInferred(b: Bindings, widen: bool)
    ensures FixedPoint(Empty, b, widen) == b
  {
    assert InferStmt(Empty, b, widen) == b;
  }

  /** A loop of one expression without end. */
  function Forever(e: Expr): (s: Stmt) {
    While(Literal(Boolean(true)), ExprStmt(e))
  }

  /** It is refused when what the body leaves fits the head of neither attempt. */
  lemma ForeverRefused(e: Expr, at: nat, b: Bindings, base: nat, mode: Head)
    requires var h := FixedPoint(ExprStmt(e), b, mode.Widened?);
      var r := LowerExpr(e, h, base + 1);
      r.Some? ==> !Fits(r.value.after, h)
    ensures LowerLoopOnce(Forever(e), at, b, base, mode).None?
  {
    hide LowerExpr, Fits, FixedPoint, LoopCode;
  }

  /** A binding that is left of a wider type does not fit. */
  lemma TooWide(after: Bindings, h: Bindings, x: string)
    requires x in h && x in after && h[x].ty.Some? && after[x].ty == Some(TPrimitive)
    requires !Below(TPrimitive, h[x].ty.value)
    ensures !Fits(after, h)
  {
    hide Fits, Below;
    FitsIsOrder(after, h);
    assert AllBelow(after, h) ==> BindingBelow(after[x], h[x]);
  }

  lemma ForeverAllowed(e: Expr, b: Bindings)
    requires Sound(e, b)
    ensures Allowed(Forever(e), b, false)
  {
    assert Sound(Literal(Boolean(true)), b);
    assert Allowed(ExprStmt(e), b, true);
  }

  // ---------- undefined ----------

  /** A number that is made undefined and added to. */
  function UndefinedSum(x: string): (e: Expr) {
    Sequence(Set(x, Undefined), Assign(x, None, Sum(x)))
  }

  function Sum(x: string): (e: Expr) {
    BinaryExpr(Add, Name(x), Literal(Number(0)))
  }

  /** The sum is tracked as some primitive value, for undefined is no number. */
  lemma SumIsPrimitive(x: string, h: Bindings, base: nat)
    requires Assignable(h, x) && LowerExpr(UndefinedSum(x), h, base).Some?
    ensures var after := LowerExpr(UndefinedSum(x), h, base).value.after;
      x in after && after[x].ty == Some(TPrimitive)
  {
    hide Set, BinaryCode, Select;
    SetLowers(x, Undefined, h, base);
    var b := Retype(h, x, TUndefined);
    assert Assignable(b, x) && b[x].ty == Some(TUndefined);
    var e := Assign(x, None, Sum(x));
    assert LowerExpr(e, b, base).Some?;
    AssignLowers(e, b, base);
    BinaryLowers(Sum(x), b, base);
    assert LowerExpr(Name(x), b, base).value.ty == TUndefined && LowerExpr(Name(x), b, base).value.after == b;
    assert LowerExpr(Literal(Number(0)), b, base + 1).value.ty == TNumber;
    SelectedSum(base);
    assert LowerExpr(Sum(x), b, base).value.ty == TPrimitive;
  }

  lemma SelectedSum(base: nat)
    ensures Select(Add, TUndefined, TNumber, base, base + 1).Some?
    ensures Select(Add, TUndefined, TNumber, base, base + 1).value.ty == TPrimitive
  {
  }

  /** The inference takes the sum for a number. */
  lemma SumIsInferred(x: string, b: Bindings)
    requires x in b && b[x].ty == Some(TNumber)
    ensures FixedPoint(ExprStmt(UndefinedSum(x)), b, true) == b[x := b[x].(ty := Some(TNumberOrUndefined))]
  {
    hide Ranks;
    var s, h := ExprStmt(UndefinedSum(x)), b[x := b[x].(ty := Some(TNumberOrUndefined))];
    SumPass(x, b, h);
    SumPass(x, h, h);
    assert h[x] != b[x];
    assert FixedPoint(s, h, true) == h;
  }

  lemma SumPass(x: string, b: Bindings, h: Bindings)
    requires x in b && b[x].ty.Some? && IsNumeric(b[x].ty.value)
    requires h == b[x := b[x].(ty := Some(TNumberOrUndefined))]
    ensures InferStmt(ExprStmt(UndefinedSum(x)), b, true) == h
  {
    assert InferExpr(Set(x, Undefined), b) == Observe(b, x, TUndefined) == h;
    assert InferExpr(Sum(x), h) == h;
    assert ExprType(Name(x), h) == Some(TNumberOrUndefined) && ExprType(Sum(x), h) == Some(TNumber);
    assert Observe(h, x, TNumber) == h;
    assert InferExpr(Assign(x, None, Sum(x)), h) == h;
  }

  lemma UndefinedIsRefused(x: string, at: nat, b: Bindings, base: nat, mode: Head)
    requires Assignable(b, x) && b[x].ty == Some(TNumber)
    ensures Allowed(Forever(UndefinedSum(x)), b, false)
    ensures LowerLoop(Forever(UndefinedSum(x)), at, b, base, mode).None?
  {
    hide LowerExpr, FixedPoint, Fits, LowerLoopOnce, Below, Forever, Allowed;
    var e := UndefinedSum(x);
    SumIsSound(x, b);
    ForeverAllowed(e, b);
    StillWithout(ExprStmt(e), b);
    StillThere(ExprStmt(e), b);
    SumIsInferred(x, b);
    var h := b[x := b[x].(ty := Some(TNumberOrUndefined))];
    SumDoesNotFit(x, b, base + 1);
    SumDoesNotFit(x, h, base + 1);
    ForeverRefused(e, at, b, base, Declared);
    ForeverRefused(e, at, b, base, Widened);
  }

  lemma StillThere(s: Stmt, b: Bindings)
    requires InferStmt(s, b, false) == b
    ensures FixedPoint(s, b, false) == b
  {
    hide InferStmt;
  }

  lemma SumIsSound(x: string, b: Bindings)
    requires Assignable(b, x)
    ensures Sound(UndefinedSum(x), b)
  {
    assert Sound(Name(x), b) && Sound(Literal(Number(0)), b) && Sound(Literal(Undefined), b);
    assert Sound(Sum(x), b) && Sound(Set(x, Undefined), b);
  }

  lemma SumDoesNotFit(x: string, h: Bindings, base: nat)
    requires Assignable(h, x) && IsNumeric(h[x].ty.value)
    ensures var r := LowerExpr(UndefinedSum(x), h, base); r.Some? ==> !Fits(r.value.after, h)
  {
    hide LowerExpr, Fits;
    if LowerExpr(UndefinedSum(x), h, base).Some? {
      SumIsPrimitive(x, h, base);
      TooWide(LowerExpr(UndefinedSum(x), h, base).value.after, h, x);
    }
  }

  // ---------- compound assignments ----------

  /** A compound assignment whose value is kept. */
  function KeptSum(x: string, y: string): (e: Expr) {
    Assign(y, None, Added(x))
  }

  function Added(x: string): (e: Expr) {
    Assign(x, Some(Add), Literal(Number(0)))
  }

  /** What is added to may be a string, so the sum is tracked as some primitive value. */
  lemma KeptIsPrimitive(x: string, y: string, h: Bindings, base: nat)
    requires Assignable(h, x) && Assignable(h, y) && !IsNumeric(h[x].ty.value)
    requires LowerExpr(KeptSum(x, y), h, base).Some?
    ensures var after := LowerExpr(KeptSum(x, y), h, base).value.after; y in after && after[y].ty == Some(TPrimitive)
  {
    hide CompoundCode, SelectCompound;
    AssignLowers(KeptSum(x, y), h, base);
    CompoundLowers(Added(x), h, base);
    assert LowerExpr(Literal(Number(0)), h, base + 1).value.ty == TNumber;
    SelectedAdd(h[x].ty.value, base);
  }

  lemma SelectedAdd(t: RegType, base: nat)
    requires !IsNumeric(t)
    ensures SelectCompound(Add, t, TNumber, base, base + 1).Some?
    ensures SelectCompound(Add, t, TNumber, base, base + 1).value.ty == TPrimitive
  {
  }

  /** The inference takes it for what is added. */
  lemma KeptIsInferred(x: string, y: string, b: Bindings)
    requires x != y && x in b && y in b && b[x].ty == Some(TString) && b[y].ty == Some(TNumber)
    ensures FixedPoint(ExprStmt(KeptSum(x, y)), b, true) == b[x := b[x].(ty := Some(TUnknown))]
  {
    hide Ranks;
    var s, h := ExprStmt(KeptSum(x, y)), b[x := b[x].(ty := Some(TUnknown))];
    KeptPass(x, y, b, h);
    KeptPass(x, y, h, h);
    assert h[x] != b[x];
    assert FixedPoint(s, h, true) == h;
  }

  lemma KeptPass(x: string, y: string, b: Bindings, h: Bindings)
    requires x != y && x in b && y in b && b[x].ty.Some? && b[y].ty == Some(TNumber)
    requires h == b[x := b[x].(ty := Some(TUnknown))]
    ensures InferStmt(ExprStmt(KeptSum(x, y)), b, true) == h
  {
    assert InferExpr(Literal(Number(0)), b) == b;
    assert InferExpr(Added(x), b) == Observe(b, x, TUnknown) == h;
    assert ExprType(Literal(Number(0)), h) == Some(TNumber) && ExprType(Added(x), h) == Some(TNumber);
    assert Observe(h, y, TNumber) == h;
  }

  lemma KeptIsRefused(x: string, y: string, at: nat, b: Bindings, base: nat, mode: Head)
    requires x != y && Assignable(b, x) && Assignable(b, y) && b[x].ty == Some(TString) && b[y].ty == Some(TNumber)
    ensures Allowed(Forever(KeptSum(x, y)), b, false)
    ensures LowerLoop(Forever(KeptSum(x, y)), at, b, base, mode).None?
  {
    hide LowerExpr, FixedPoint, Fits, LowerLoopOnce, Forever, Allowed;
    var e := KeptSum(x, y);
    KeptIsSound(x, y, b);
    ForeverAllowed(e, b);
    StillWithout(ExprStmt(e), b);
    StillThere(ExprStmt(e), b);
    KeptIsInferred(x, y, b);
    var h := b[x := b[x].(ty := Some(TUnknown))];
    KeptDoesNotFit(x, y, b, base + 1);
    KeptDoesNotFit(x, y, h, base + 1);
    ForeverRefused(e, at, b, base, Declared);
    ForeverRefused(e, at, b, base, Widened);
  }

  lemma KeptIsSound(x: string, y: string, b: Bindings)
    requires Assignable(b, x) && Assignable(b, y)
    ensures Sound(KeptSum(x, y), b)
  {
    assert Sound(Literal(Number(0)), b);
    assert Sound(Added(x), b);
  }

  lemma KeptDoesNotFit(x: string, y: string, h: Bindings, base: nat)
    requires Assignable(h, x) && Assignable(h, y) && !IsNumeric(h[x].ty.value) && h[y].ty == Some(TNumber)
    ensures var r := LowerExpr(KeptSum(x, y), h, base); r.Some? ==> !Fits(r.value.after, h)
  {
    hide LowerExpr, Fits;
    if LowerExpr(KeptSum(x, y), h, base).Some? {
      KeptIsPrimitive(x, y, h, base);
      TooWide(LowerExpr(KeptSum(x, y), h, base).value.after, h, y);
    }
  }
}
