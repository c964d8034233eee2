/** The types a loop's head starts from: those its body's assignments can produce. */
module TypeInference {
  import opened Wrappers
  import opened Source
  import opened RegisterTypes

  function TypeOf(v: Value): (t: RegType)
    ensures Inhabits(v, t)
  {
    match v
    case Undefined => TUndefined
    case Null => TNull
    case Boolean(_) => TBoolean
    case Number(_) => TNumber
    case String(_) => TString
  }

  /** The type a name that has no binding answers. */
  function GlobalType(name: string): (t: Option<RegType>) {
    if name == "undefined" then Some(TUndefined)
    else if name == "NaN" || name == "Infinity" then Some(TNumber)
    else None
  }

  function BinaryType(op: Binary, l: RegType, r: RegType): (t: Option<RegType>) {
    match op
    case And => Some(Merge(l, r))
    case Or => Some(Merge(l, r))
    case Nullish => Some(Merge(l, r))
    case Add =>
      if l.TString? && r.TString? then Some(TString)
      else if IsNumeric(l) && IsNumeric(r) then Some(TNumber) else None
    case Sub => if IsNumeric(l) && IsNumeric(r) then Some(TNumber) else None
    case Mul => if IsNumeric(l) && IsNumeric(r) then Some(TNumber) else None
    case Div => if IsNumeric(l) && IsNumeric(r) then Some(TNumber) else None
    case Rem => if IsNumeric(l) && IsNumeric(r) then Some(TNumber) else None
    case Lt => Some(TBoolean)
    case Le => Some(TBoolean)
    case Gt => Some(TBoolean)
    case Ge => Some(TBoolean)
    case Eq => Some(TBoolean)
    case Ne => Some(TBoolean)
    case StrictEq => Some(TBoolean)
    case StrictNe => Some(TBoolean)
    case _ => if IsPrimitive(l) && IsPrimitive(r) then Some(TNumber) else None
  }

  /** The type of an expression, where it can be told. No proof here depends on its being right. */
  function ExprType(e: Expr, b: Bindings): (t: Option<RegType>) {
    match e
    case Literal(value) => Some(TypeOf(value))
    case Name(name) => if name in b && b[name].ty.Some? then b[name].ty else GlobalType(name)
    case Assign(_, _, right) => ExprType(right, b)
    case BinaryExpr(op, left, right) =>
      var l, r := ExprType(left, b), ExprType(right, b);
      if l.None? || r.None? then None else BinaryType(op, l.value, r.value)
    case Conditional(_, yes, no) =>
      var y, n := ExprType(yes, b), ExprType(no, b);
      if y.None? || n.None? then None else Some(Merge(y.value, n.value))
    case Sequence(_, right) => ExprType(right, b)
  }

  /** Merges a type into a binding; a type that is not known yet is what it becomes. */
  function Observe(b: Bindings, name: string, t: RegType): (r: Bindings)
    ensures r.Keys == b.Keys
  {
    if name in b then
      b[name := b[name].(ty := Some(if b[name].ty.Some? then Merge(b[name].ty.value, t) else t))]
    else b
  }

  /** `Observe`, for the assignments in an expression, left to right. */
  function InferExpr(e: Expr, b: Bindings): (r: Bindings)
    ensures r.Keys == b.Keys
  {
    match e
    case Literal(_) => b
    case Name(_) => b
    case Assign(name, operator, right) =>
      var c := InferExpr(right, b);
      var t := if operator.None? then ExprType(right, c) else None;
      Observe(c, name, if t.Some? then t.value else TUnknown)
    case BinaryExpr(_, left, right) => InferExpr(right, InferExpr(left, b))
    case Conditional(condition, yes, no) => InferExpr(no, InferExpr(yes, InferExpr(condition, b)))
    case Sequence(left, right) => InferExpr(right, InferExpr(left, b))
  }

  /** One pass over a statement. Conditions are not looked into. */
  function InferStmt(s: Stmt, b: Bindings, widen: bool): (r: Bindings)
    ensures r.Keys == b.Keys
    decreases s
  {
    match s
    case ExprStmt(e) => if widen then InferExpr(e, b) else b
    case If(_, yes, no) =>
      var c := InferStmt(yes, b, widen);
      if no.Some? then InferStmt(no.value, c, widen) else c
    case Block(body) => InferList(body, b, widen)
    case While(_, body) => InferStmt(body, b, widen)
    case DoWhile(body, _) => InferStmt(body, b, widen)
    case Break => b
    case Continue => b
    case Empty => b
  }

  function InferList(body: seq<Stmt>, b: Bindings, widen: bool): (r: Bindings)
    ensures r.Keys == b.Keys
    decreases body
  {
    if body == [] then b else InferList(body[1..], InferStmt(body[0], b, widen), widen)
  }

  // ---------- every pass goes up ----------

  /** How far up a binding's type is; one that is not known is below all. */
  function Rank(b: Binding): (n: nat)
    ensures n <= 4
  {
    if b.ty.None? then 0 else 1 + Height(b.ty.value)
  }

  /** The type went up, or stayed. */
  predicate Rises(x: Binding, y: Binding) {
    && y == x.(ty := y.ty)
    && (x.ty.Some? ==> y.ty.Some? && Below(x.ty.value, y.ty.value))
  }

  ghost predicate AllRise(x: Bindings, y: Bindings) {
    x.Keys == y.Keys && forall n | n in x :: Rises(x[n], y[n])
  }

  lemma AllRiseThen(x: Bindings, y: Bindings, z: Bindings)
    requires AllRise(x, y) && AllRise(y, z)
    ensures AllRise(x, z)
  {
    hide Below;
    forall n | n in x ensures Rises(x[n], z[n]) {
      assert Rises(x[n], y[n]) && Rises(y[n], z[n]);
      if x[n].ty.Some? {
        MergeIsLeastUpperBound(x[n].ty.value, y[n].ty.value, z[n].ty.value);
      }
    }
  }

  lemma ObserveRises(b: Bindings, name: string, t: RegType)
    ensures AllRise(b, Observe(b, name, t))
  {
    hide Below, Merge;
    forall n | n in b ensures Rises(b[n], Observe(b, name, t)[n]) {
      if b[n].ty.Some? {
        MergeIsLeastUpperBound(b[n].ty.value, t, t);
      }
    }
  }

  lemma {:induction false} InferExprRises(e: Expr, b: Bindings)
    ensures AllRise(b, InferExpr(e, b))
  {
    hide AllRise, Observe, ExprType;
    match e
    case Literal(_) =>
      RiseSelf(b);
    case Name(_) =>
      RiseSelf(b);
    case Assign(name, operator, right) =>
      InferExprRises(right, b);
      var c := InferExpr(right, b);
      var t := if operator.None? then ExprType(right, c) else None;
      ObserveRises(c, name, if t.Some? then t.value else TUnknown);
      AllRiseThen(b, c, InferExpr(e, b));
    case BinaryExpr(_, left, right) =>
      InferExprRises(left, b);
      InferExprRises(right, InferExpr(left, b));
      AllRiseThen(b, InferExpr(left, b), InferExpr(e, b));
    case Conditional(condition, yes, no) =>
      var c := InferExpr(condition, b);
      var d := InferExpr(yes, c);
      InferExprRises(condition, b);
      InferExprRises(yes, c);
      InferExprRises(no, d);
      AllRiseThen(b, c, d);
      AllRiseThen(b, d, InferExpr(e, b));
    case Sequence(left, right) =>
      InferExprRises(left, b);
      InferExprRises(right, InferExpr(left, b));
      AllRiseThen(b, InferExpr(left, b), InferExpr(e, b));
  }

  lemma RiseSelf(b: Bindings)
    ensures AllRise(b, b)
  {
  }

  lemma {:induction false} InferStmtRises(s: Stmt, b: Bindings, widen: bool)
    ensures AllRise(b, InferStmt(s, b, widen))
    decreases s
  {
    hide AllRise, InferExpr;
    RiseSelf(b);
    match s
    case ExprStmt(e) =>
      InferExprRises(e, b);
    case If(_, yes, no) =>
      InferStmtRises(yes, b, widen);
      if no.Some? {
        InferStmtRises(no.value, InferStmt(yes, b, widen), widen);
        AllRiseThen(b, InferStmt(yes, b, widen), InferStmt(s, b, widen));
      }
    case Block(body) =>
      InferListRises(body, b, widen);
    case While(_, body) =>
      InferStmtRises(body, b, widen);
    case DoWhile(body, _) =>
      InferStmtRises(body, b, widen);
    case _ =>
  }

  lemma {:induction false} InferListRises(body: seq<Stmt>, b: Bindings, widen: bool)
    ensures AllRise(b, InferList(body, b, widen))
    decreases body
  {
    hide AllRise;
    if body == [] {
      RiseSelf(b);
    } else {
      InferStmtRises(body[0], b, widen);
      InferListRises(body[1..], InferStmt(body[0], b, widen), widen);
      AllRiseThen(b, InferStmt(body[0], b, widen), InferList(body, b, widen));
    }
  }

  // ---------- so passes come to an end ----------

  /** The ranks of all bindings together. */
  ghost function Ranks(b: Bindings): (n: nat)
    decreases |b|
  {
    if b == map[] then 0
    else
      var k :| k in b;
      assert b == (b - {k})[k := b[k]];
      Rank(b[k]) + Ranks(b - {k})
  }

  lemma {:induction false} RanksOf(b: Bindings, k: string)
    requires k in b
    ensures Ranks(b) == Rank(b[k]) + Ranks(b - {k}) && |b - {k}| == |b| - 1
    decreases |b|
  {
    hide Rank;
    var j :| j in b && Ranks(b) == Rank(b[j]) + Ranks(b - {j});
    hide Ranks;
    assert b == (b - {j})[j := b[j]] == (b - {k})[k := b[k]];
    if j != k {
      RanksOf(b - {j}, k);
      RanksOf(b - {k}, j);
      assert (b - {j}) - {k} == (b - {k}) - {j};
    }
  }

  lemma {:induction false} RanksBounded(b: Bindings)
    ensures Ranks(b) <= 4 * |b|
    decreases |b|
  {
    if b != map[] {
      var k :| k in b;
      RanksOf(b, k);
      RanksBounded(b - {k});
    }
  }

  /** A pass that changes anything raises the ranks. */
  lemma {:induction false} RanksRise(x: Bindings, y: Bindings)
    requires AllRise(x, y)
    ensures Ranks(x) <= Ranks(y) && (x != y ==> Ranks(x) < Ranks(y))
    decreases |x|
  {
    hide Rank;
    if x == map[] {
      assert y.Keys == {};
      assert y == map[];
    } else {
      var k :| k in x;
      RanksOf(x, k);
      RanksOf(y, k);
      var x', y' := x - {k}, y - {k};
      forall n | n in x' ensures Rises(x'[n], y'[n]) {
        assert Rises(x[n], y[n]);
      }
      RanksRise(x', y');
      RankRises(x[k], y[k]);
      if x' == y' && x[k] == y[k] {
        assert x == x'[k := x[k]] && y == y'[k := y[k]];
      }
    }
  }

  lemma RankRises(x: Binding, y: Binding)
    requires Rises(x, y)
    ensures Rank(x) <= Rank(y) && (x != y ==> Rank(x) < Rank(y))
  {
    if x.ty.Some? {
      MergeIsLeastUpperBound(x.ty.value, y.ty.value, y.ty.value);
    }
  }

  /** Passes until one changes nothing. */
  ghost function FixedPoint(s: Stmt, b: Bindings, widen: bool): (r: Bindings)
    ensures r.Keys == b.Keys
    decreases 4 * |b| - Ranks(b)
  {
    var next := InferStmt(s, b, widen);
    if next == b then b
    else
      PassRises(s, b, widen);
      FixedPoint(s, next, widen)
  }

  lemma PassRises(s: Stmt, b: Bindings, widen: bool)
    ensures var next := InferStmt(s, b, widen);
      |next| == |b| && Ranks(b) <= Ranks(next) <= 4 * |b| && (next != b ==> Ranks(b) < Ranks(next))
  {
    var next := InferStmt(s, b, widen);
    InferStmtRises(s, b, widen);
    RanksRise(b, next);
    RanksBounded(next);
    assert |b| == |b.Keys| && |next| == |next.Keys|;
  }

  /** Where passes end, another changes nothing, and no type is lower than where they began. */
  lemma {:induction false} FixedPointHolds(s: Stmt, b: Bindings, widen: bool)
    ensures InferStmt(s, FixedPoint(s, b, widen), widen) == FixedPoint(s, b, widen)
    ensures AllRise(b, FixedPoint(s, b, widen))
    decreases 4 * |b| - Ranks(b)
  {
    hide AllRise;
    var next := InferStmt(s, b, widen);
    RiseSelf(b);
    if next != b {
      PassRises(s, b, widen);
      FixedPointHolds(s, next, widen);
      InferStmtRises(s, b, widen);
      AllRiseThen(b, next, FixedPoint(s, b, widen));
    }
  }

  /** The inference loop stops after at most `4n + 1` passes for `n` bindings. */
  method InferToFixedPoint(s: Stmt, start: Bindings, widen: bool) returns (b: Bindings, passes: nat)
    ensures b == FixedPoint(s, start, widen)
    ensures InferStmt(s, b, widen) == b
    ensures passes <= 4 * |start| + 1
  {
    hide InferStmt, Ranks;
    b, passes := start, 1;
    RanksBounded(start);
    FixedPointHolds(s, start, widen);
    var next := InferStmt(s, b, widen);
    while next != b
      invariant next == InferStmt(s, b, widen) && |b| == |start|
      invariant FixedPoint(s, b, widen) == FixedPoint(s, start, widen)
      invariant passes <= Ranks(b) + 1 && Ranks(b) <= 4 * |start|
      decreases 4 * |start| - Ranks(b)
    {
      PassRises(s, b, widen);
      b := next;
      next := InferStmt(s, b, widen);
      passes := passes + 1;
    }
  }
}
