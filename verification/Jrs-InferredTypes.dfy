/** What the inference finds for programs whose types it can tell: the least types that take in every
    assignment. */
module InferredTypes {
  import opened Wrappers
  import opened Source
  import opened RegisterTypes
  import opened TypeInference
  import opened ExpressionLowering
  import opened ExpressionAcceptance

  /** A type that undefined has no part in, unless every value has. */
  predicate Settled(t: RegType) {
    t.TNumber? || t.TBoolean? || t.TNull? || t.TString? || t.TPrimitive? || t.TUnknown?
  }

  /** Every binding is initialized and of a settled type. */
  ghost predicate Tidy(b: Bindings) {
    forall n | n in b :: b[n].ty.Some? && Settled(b[n].ty.value)
  }

  /** An expression that does not write undefined, and has only plain assignments, none of them in an arm
      of a conditional. */
  predicate Simple(e: Expr) {
    match e
    case Literal(value) => !value.Undefined?
    case Name(_) => true
    case Assign(_, operator, right) => operator.None? && Simple(right)
    case BinaryExpr(_, left, right) => Simple(left) && Simple(right)
    case Conditional(condition, yes, no) =>
      Simple(condition) && Simple(yes) && Simple(no) && Pure(yes) && Pure(no)
    case Sequence(left, right) => Simple(left) && Simple(right)
  }

  /** A compound assignment may stand by itself. */
  predicate SimpleWhole(e: Expr) {
    Simple(e) || (e.Assign? && e.operator.Some? && Simple(e.right))
  }

  /** Conditions assign nothing. */
  predicate SimpleStmt(s: Stmt) {
    match s
    case ExprStmt(e) => SimpleWhole(e)
    case If(condition, yes, no) =>
      Simple(condition) && Pure(condition) && SimpleStmt(yes) && (no.Some? ==> SimpleStmt(no.value))
    case Block(body) => SimpleList(body)
    case While(condition, body) => Simple(condition) && Pure(condition) && SimpleStmt(body)
    case DoWhile(body, condition) => SimpleStmt(body) && Simple(condition) && Pure(condition)
    case _ => true
  }

  predicate SimpleList(body: seq<Stmt>) {
    body == [] || (SimpleStmt(body[0]) && SimpleList(body[1..]))
  }

  // ---------- names without a binding ----------

  /** The values of the names that are never bound: section 19.1 of ECMA-262. */
  function GlobalValue(name: string): (v: Option<Value>) {
    if name == "undefined" then Some(Undefined)
    else if name == "NaN" then Some(Number(0x7FF8_0000_0000_0000))
    else if name == "Infinity" then Some(Number(0x7FF0_0000_0000_0000))
    else None
  }

  lemma GlobalsAreTyped(name: string)
    ensures GlobalType(name).Some? <==> GlobalValue(name).Some?
    ensures GlobalValue(name).Some? ==> GlobalType(name) == Some(TypeOf(GlobalValue(name).value))
  {
  }

  // ---------- the order ----------

  lemma TidyRises(b: Bindings, c: Bindings)
    requires AllRise(b, c) && Tidy(b)
    ensures AllBelow(b, c)
  {
    forall n | n in b ensures BindingBelow(b[n], c[n]) {
      assert Rises(b[n], c[n]);
    }
  }

  lemma RiseBack(b: Bindings, c: Bindings)
    requires AllRise(b, c) && AllRise(c, b)
    ensures b == c
  {
    forall n | n in b ensures b[n] == c[n] {
      assert Rises(b[n], c[n]) && Rises(c[n], b[n]);
      if b[n].ty.Some? {
        MergeIsLeastUpperBound(b[n].ty.value, c[n].ty.value, c[n].ty.value);
      }
    }
  }

  lemma SettledMerge(a: RegType, b: RegType)
    requires Settled(a) && Settled(b)
    ensures Settled(Merge(a, b))
  {
  }

  // ---------- expressions ----------

  lemma {:induction false} TypeSettled(e: Expr, b: Bindings)
    requires Simple(e) && Tidy(b) && ExprBound(e, b.Keys) && ExprType(e, b).Some?
    ensures Settled(ExprType(e, b).value)
  {
    match e
    case Literal(_) =>
    case Name(_) =>
    case Assign(_, _, right) =>
      TypeSettled(right, b);
    case BinaryExpr(op, left, right) =>
      TypeSettled(left, b);
      TypeSettled(right, b);
    case Conditional(_, yes, no) =>
      TypeSettled(yes, b);
      TypeSettled(no, b);
    case Sequence(_, right) =>
      TypeSettled(right, b);
  }

  lemma BinaryTypeBelow(op: Binary, l: RegType, r: RegType, l': RegType, r': RegType)
    requires Below(l, l') && Below(r, r') && Settled(l) && Settled(r) && Settled(l') && Settled(r')
    ensures BinaryType(op, l', r').Some? ==>
      BinaryType(op, l, r).Some? && Below(BinaryType(op, l, r).value, BinaryType(op, l', r').value)
  {
    if IsLogical(op) {
      MergeBelow(l, r, l', r');
    }
  }

  lemma MergeBelow(l: RegType, r: RegType, l': RegType, r': RegType)
    requires Below(l, l') && Below(r, r')
    ensures Below(Merge(l, r), Merge(l', r'))
  {
    var m := Merge(l', r');
    MergeIsLeastUpperBound(l', r', m);
    MergeIsLeastUpperBound(l, l', m);
    MergeIsLeastUpperBound(r, r', m);
    MergeIsLeastUpperBound(l, r, m);
  }

  /** Under narrower bindings an expression is of a narrower type. */
  lemma {:induction false} TypeBelow(e: Expr, b: Bindings, h: Bindings)
    requires Simple(e) && Tidy(b) && Tidy(h) && AllBelow(b, h) && ExprBound(e, b.Keys)
    ensures ExprType(e, h).Some? ==> ExprType(e, b).Some? && Below(ExprType(e, b).value, ExprType(e, h).value)
  {
    hide Below, Merge, BinaryType, Settled;
    match e
    case Literal(value) =>
      MergeIsLeastUpperBound(TypeOf(value), TypeOf(value), TypeOf(value));
    case Name(name) =>
      assert BindingBelow(b[name], h[name]);
    case Assign(_, _, right) =>
      TypeBelow(right, b, h);
    case BinaryExpr(op, left, right) =>
      TypeBelow(left, b, h);
      TypeBelow(right, b, h);
      var l, r := ExprType(left, h), ExprType(right, h);
      if l.Some? && r.Some? {
        TypeSettled(left, b);
        TypeSettled(right, b);
        TypeSettled(left, h);
        TypeSettled(right, h);
        BinaryTypeBelow(op, ExprType(left, b).value, ExprType(right, b).value, l.value, r.value);
      }
    case Conditional(_, yes, no) =>
      TypeBelow(yes, b, h);
      TypeBelow(no, b, h);
      var y, n := ExprType(yes, h), ExprType(no, h);
      if y.Some? && n.Some? {
        MergeBelow(ExprType(yes, b).value, ExprType(no, b).value, y.value, n.value);
      }
    case Sequence(_, right) =>
      TypeBelow(right, b, h);
  }

  lemma ObserveSettled(b: Bindings, name: string, t: RegType)
    requires Tidy(b) && Settled(t)
    ensures Tidy(Observe(b, name, t))
  {
    hide Settled, Merge;
    if name in b {
      SettledMerge(b[name].ty.value, t);
    }
  }

  /** What is merged into a name that an expression assigns. */
  function Assigned(operator: Option<Binary>, right: Expr, b: Bindings): (t: RegType) {
    var t := if operator.None? then ExprType(right, b) else None;
    if t.Some? then t.value else TUnknown
  }

  lemma {:induction false} InferSettled(e: Expr, b: Bindings)
    requires SimpleWhole(e) && Tidy(b) && ExprBound(e, b.Keys)
    ensures Tidy(InferExpr(e, b))
  {
    hide Tidy, Observe, ExprType;
    match e
    case Literal(_) =>
    case Name(_) =>
    case Assign(name, operator, right) =>
      InferSettled(right, b);
      var c := InferExpr(right, b);
      if operator.None? && ExprType(right, c).Some? {
        TypeSettled(right, c);
      }
      ObserveSettled(c, name, Assigned(operator, right, c));
    case BinaryExpr(_, left, right) =>
      InferSettled(left, b);
      InferSettled(right, InferExpr(left, b));
    case Conditional(condition, yes, no) =>
      InferSettled(condition, b);
      InferSettled(yes, InferExpr(condition, b));
      InferSettled(no, InferExpr(yes, InferExpr(condition, b)));
    case Sequence(left, right) =>
      InferSettled(left, b);
      InferSettled(right, InferExpr(left, b));
  }

  /** Bindings that the assignments of an expression add nothing to, part by part. */
  lemma ClosedParts(e: Expr, h: Bindings)
    requires InferExpr(e, h) == h
    ensures e.Assign? ==> InferExpr(e.right, h) == h && Observe(h, e.name, Assigned(e.operator, e.right, h)) == h
    ensures e.BinaryExpr? || e.Sequence? ==> InferExpr(e.left, h) == h && InferExpr(e.right, h) == h
    ensures e.Conditional? ==>
      InferExpr(e.condition, h) == h && InferExpr(e.yes, h) == h && InferExpr(e.no, h) == h
  {
    hide Observe, AllRise;
    match e
    case Literal(_) =>
    case Name(_) =>
    case Assign(name, operator, right) =>
      var c := InferExpr(right, h);
      InferExprRises(right, h);
      ObserveRises(c, name, Assigned(operator, right, c));
      RiseBack(h, c);
    case BinaryExpr(_, left, right) =>
      InferExprRises(left, h);
      InferExprRises(right, InferExpr(left, h));
      RiseBack(h, InferExpr(left, h));
    case Conditional(condition, yes, no) =>
      var c := InferExpr(condition, h);
      var d := InferExpr(yes, c);
      InferExprRises(condition, h);
      InferExprRises(yes, c);
      InferExprRises(no, d);
      AllRiseThen(h, c, d);
      RiseBack(h, d);
      AllRiseThen(c, d, h);
      RiseBack(h, c);
    case Sequence(left, right) =>
      InferExprRises(left, h);
      InferExprRises(right, InferExpr(left, h));
      RiseBack(h, InferExpr(left, h));
  }

  /** A type that adds nothing to a binding is below it. */
  lemma ObservedBelow(h: Bindings, name: string, t: RegType)
    requires name in h && h[name].ty.Some? && Observe(h, name, t) == h
    ensures Below(t, h[name].ty.value)
  {
    hide Below, Merge;
    assert Observe(h, name, t)[name].ty == Some(Merge(h[name].ty.value, t));
    MergeIsLeastUpperBound(h[name].ty.value, t, t);
  }

  lemma ObserveStaysBelow(b: Bindings, h: Bindings, name: string, t: RegType)
    requires AllBelow(b, h) && name in h && h[name].ty.Some? && Below(t, h[name].ty.value)
    ensures AllBelow(Observe(b, name, t), h)
  {
    hide Below, Merge;
    assert BindingBelow(b[name], h[name]);
    MergeIsLeastUpperBound(b[name].ty.value, t, h[name].ty.value);
    forall n | n in b ensures BindingBelow(Observe(b, name, t)[n], h[n]) {
      assert BindingBelow(b[n], h[n]);
    }
  }

  /** Inference from narrower bindings stays below bindings it adds nothing to. */
  lemma {:induction false} InferBelow(e: Expr, b: Bindings, h: Bindings)
    requires SimpleWhole(e) && Tidy(b) && Tidy(h) && AllBelow(b, h) && ExprBound(e, b.Keys) && InferExpr(e, h) == h
    ensures AllBelow(InferExpr(e, b), h)
  {
    hide AllBelow, Tidy, Observe, ExprType;
    ClosedParts(e, h);
    match e
    case Literal(_) =>
    case Name(_) =>
    case Assign(name, operator, right) =>
      InferBelow(right, b, h);
      InferSettled(right, b);
      var c := InferExpr(right, b);
      if operator.None? {
        TypeBelow(right, c, h);
      }
      TidyAt(b, h, name);
      ObservedBelow(h, name, Assigned(operator, right, h));
      AssignedBelow(operator, right, c, h, name);
      ObserveStaysBelow(c, h, name, Assigned(operator, right, c));
    case BinaryExpr(_, left, right) =>
      InferBelow(left, b, h);
      InferSettled(left, b);
      InferBelow(right, InferExpr(left, b), h);
    case Conditional(condition, yes, no) =>
      InferBelow(condition, b, h);
      InferSettled(condition, b);
      var c := InferExpr(condition, b);
      InferBelow(yes, c, h);
      InferSettled(yes, c);
      InferBelow(no, InferExpr(yes, c), h);
    case Sequence(left, right) =>
      InferBelow(left, b, h);
      InferSettled(left, b);
      InferBelow(right, InferExpr(left, b), h);
  }

  lemma TidyAt(b: Bindings, h: Bindings, name: string)
    requires AllBelow(b, h) && Tidy(h) && name in b
    ensures name in h && h[name].ty.Some?
  {
  }

  lemma AssignedBelow(operator: Option<Binary>, right: Expr, b: Bindings, h: Bindings, name: string)
    requires name in h && h[name].ty.Some? && Below(Assigned(operator, right, h), h[name].ty.value)
    requires operator.None? && ExprType(right, h).Some? ==>
      ExprType(right, b).Some? && Below(ExprType(right, b).value, ExprType(right, h).value)
    ensures Below(Assigned(operator, right, b), h[name].ty.value)
  {
    hide ExprType;
  }

  // ---------- statements ----------

  lemma {:induction false} PassSettled(s: Stmt, b: Bindings)
    requires SimpleStmt(s) && Tidy(b) && StmtBound(s, b.Keys)
    ensures Tidy(InferStmt(s, b, true))
    decreases s
  {
    hide Tidy, InferExpr, ExprBound;
    match s
    case ExprStmt(e) =>
      InferSettled(e, b);
    case If(_, yes, no) =>
      PassSettled(yes, b);
      if no.Some? {
        PassSettled(no.value, InferStmt(yes, b, true));
      }
    case Block(body) =>
      PassListSettled(body, b);
    case While(_, body) =>
      PassSettled(body, b);
    case DoWhile(body, _) =>
      PassSettled(body, b);
    case _ =>
  }

  lemma {:induction false} PassListSettled(body: seq<Stmt>, b: Bindings)
    requires SimpleList(body) && Tidy(b) && ListBound(body, b.Keys)
    ensures Tidy(InferList(body, b, true))
    decreases body
  {
    hide Tidy;
    if body != [] {
      PassSettled(body[0], b);
      PassListSettled(body[1..], InferStmt(body[0], b, true));
    }
  }

  /** The statement's assignments add nothing to the bindings. */
  predicate Closed(s: Stmt, h: Bindings) {
    InferStmt(s, h, true) == h
  }

  predicate ListClosed(body: seq<Stmt>, h: Bindings) {
    InferList(body, h, true) == h
  }

  lemma ClosedIf(s: Stmt, h: Bindings)
    requires s.If? && Closed(s, h)
    ensures Closed(s.yes, h) && (s.no.Some? ==> Closed(s.no.value, h))
  {
    hide AllRise;
    var c := InferStmt(s.yes, h, true);
    InferStmtRises(s.yes, h, true);
    if s.no.Some? {
      InferStmtRises(s.no.value, c, true);
      RiseBack(h, c);
    }
  }

  lemma ClosedFirst(body: seq<Stmt>, h: Bindings)
    requires body != [] && ListClosed(body, h)
    ensures Closed(body[0], h) && ListClosed(body[1..], h)
  {
    hide AllRise;
    var c := InferStmt(body[0], h, true);
    InferStmtRises(body[0], h, true);
    InferListRises(body[1..], c, true);
    RiseBack(h, c);
  }

  lemma {:induction false} PassBelow(s: Stmt, b: Bindings, h: Bindings)
    requires SimpleStmt(s) && Tidy(b) && Tidy(h) && AllBelow(b, h) && StmtBound(s, b.Keys) && Closed(s, h)
    ensures AllBelow(InferStmt(s, b, true), h)
    decreases s
  {
    hide Tidy, AllBelow, InferExpr, ExprBound;
    match s
    case ExprStmt(e) =>
      InferBelow(e, b, h);
    case If(_, yes, no) =>
      ClosedIf(s, h);
      PassBelow(yes, b, h);
      if no.Some? {
        PassSettled(yes, b);
        PassBelow(no.value, InferStmt(yes, b, true), h);
      }
    case Block(body) =>
      PassListBelow(body, b, h);
    case While(_, body) =>
      PassBelow(body, b, h);
    case DoWhile(body, _) =>
      PassBelow(body, b, h);
    case _ =>
  }

  lemma {:induction false} PassListBelow(body: seq<Stmt>, b: Bindings, h: Bindings)
    requires SimpleList(body) && Tidy(b) && Tidy(h) && AllBelow(b, h) && ListBound(body, b.Keys) && ListClosed(body, h)
    ensures AllBelow(InferList(body, b, true), h)
    decreases body
  {
    hide Tidy, AllBelow;
    if body != [] {
      ClosedFirst(body, h);
      PassBelow(body[0], b, h);
      PassSettled(body[0], b);
      PassListBelow(body[1..], InferStmt(body[0], b, true), h);
    }
  }

  /** Where the passes end is below every bindings that take in the start and every assignment: the
      inference finds the least of them. */
  lemma {:induction false} FixedPointIsLeast(s: Stmt, b: Bindings, h: Bindings)
    requires SimpleStmt(s) && Tidy(b) && Tidy(h) && AllBelow(b, h) && StmtBound(s, b.Keys) && Closed(s, h)
    ensures AllBelow(FixedPoint(s, b, true), h)
    decreases 4 * |b| - Ranks(b)
  {
    hide Tidy, AllBelow, InferStmt, Ranks, Closed;
    var next := InferStmt(s, b, true);
    if next != b {
      PassRises(s, b, true);
      PassBelow(s, b, h);
      PassSettled(s, b);
      FixedPointIsLeast(s, next, h);
    }
  }

  /** The head of a loop is tidy, above the bindings it is entered with, and closed. */
  lemma {:induction false} FixedPointSettled(s: Stmt, b: Bindings)
    requires SimpleStmt(s) && Tidy(b) && StmtBound(s, b.Keys)
    ensures Tidy(FixedPoint(s, b, true)) && Closed(s, FixedPoint(s, b, true)) && AllBelow(b, FixedPoint(s, b, true))
    decreases 4 * |b| - Ranks(b)
  {
    hide Tidy, AllBelow, InferStmt, Ranks, AllRise;
    FixedPointHolds(s, b, true);
    TidyRises(b, FixedPoint(s, b, true));
    var next := InferStmt(s, b, true);
    if next != b {
      PassRises(s, b, true);
      PassSettled(s, b);
      FixedPointSettled(s, next);
    }
  }
}
