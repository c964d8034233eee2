/** The types the lowering tracks are those the inference told, or narrower. */
module LoweredTypes {
  import opened Wrappers
  import opened Source
  import opened RegisterTypes
  import opened TypeInference
  import opened RegisterMachine
  import opened ExpressionLowering
  import opened RegisterExpressions
  import opened ExpressionAcceptance
  import opened InferredTypes

  lemma TidyIsPlain(b: Bindings)
    requires Tidy(b)
    ensures Plain(b)
  {
  }

  lemma {:induction false} SimpleHasPureArms(e: Expr)
    requires Simple(e)
    ensures PureArms(e)
  {
    match e
    case Literal(_) =>
    case Name(_) =>
    case Assign(_, _, right) =>
      SimpleHasPureArms(right);
    case BinaryExpr(_, left, right) =>
      SimpleHasPureArms(left);
      SimpleHasPureArms(right);
    case Conditional(condition, _, _) =>
      SimpleHasPureArms(condition);
    case Sequence(left, right) =>
      SimpleHasPureArms(left);
      SimpleHasPureArms(right);
  }

  /** The bindings are tidy, and below bindings that are. */
  ghost predicate Under(b: Bindings, h: Bindings) {
    Tidy(b) && Tidy(h) && AllBelow(b, h)
  }

  /** What an expression was lowered to is settled, and below what the inference told of it. */
  ghost predicate Follows(r: Lowered, e: Expr, h: Bindings) {
    Under(r.after, h) && Settled(r.ty) && (ExprType(e, h).Some? ==> Below(r.ty, ExprType(e, h).value))
  }

  lemma RetypeUnder(b: Bindings, h: Bindings, name: string, ty: RegType)
    requires Under(b, h) && name in b && Settled(ty) && Below(ty, h[name].ty.value)
    ensures Under(Retype(b, name, ty), h)
  {
    hide Below, Settled;
    var r := Retype(b, name, ty);
    forall n | n in r ensures BindingBelow(r[n], h[n]) && r[n].ty.Some? && Settled(r[n].ty.value) {
      assert BindingBelow(b[n], h[n]);
    }
  }

  lemma MergeUnder(x: Bindings, y: Bindings, h: Bindings)
    requires Under(x, h) && Under(y, h) && MergeBindings(x, y).Some?
    ensures Under(MergeBindings(x, y).value, h)
  {
    hide Below, Settled, AllBelow, Merge;
    var m := MergeBindings(x, y).value;
    MergeBindingsIsLeast(x, y, h);
    forall n | n in m ensures m[n].ty.Some? && Settled(m[n].ty.value) {
      assert m[n] == MergeBinding(x[n], y[n]);
      SettledMerge(x[n].ty.value, y[n].ty.value);
    }
  }

  /** The type of what an operator is lowered to. */
  lemma SelectFollows(op: Binary, l: RegType, r: RegType, x: nat, y: nat)
    requires !IsLogical(op) && Settled(l) && Settled(r) && Select(op, l, r, x, y).Some?
    ensures Settled(Select(op, l, r, x, y).value.ty)
    ensures BinaryType(op, l, r).Some? ==> Select(op, l, r, x, y).value.ty == BinaryType(op, l, r).value
  {
  }

  /** Of a sum, a difference, a product or a quotient the inference tells the type exactly where the
      lowering has an instruction for its operands. */
  lemma SumHint(op: Binary, l: RegType, r: RegType, x: nat, y: nat)
    requires op.Add? || (IsArithmetic(op) && !op.Pow?)
    ensures Select(op, l, r, x, y).Some?
    ensures var s := Select(op, l, r, x, y).value;
      BinaryType(op, l, r) == if s.code == [RegisterMachine.Typed(op, y)] then Some(s.ty) else None
  {
  }

  /** Of a power or a bitwise operation it tells a number, unless an operand may be an object. */
  lemma BitwiseHint(op: Binary, l: RegType, r: RegType)
    requires op.Pow? || IsBitwise(op)
    ensures BinaryType(op, l, r) == if NatureOf(l) == NatureOf(r) == Primitive then Some(TNumber) else None
  {
  }

  /** Of a comparison it always tells a truth value. */
  lemma ComparisonHint(op: Binary, l: RegType, r: RegType)
    requires !IsLogical(op) && !op.Add? && !IsArithmetic(op) && !IsBitwise(op)
    ensures BinaryType(op, l, r) == Some(TBoolean)
  {
  }

  lemma {:induction false} LoweredFollows(e: Expr, b: Bindings, h: Bindings, base: nat)
    requires Simple(e) && Under(b, h) && ExprBound(e, b.Keys) && InferExpr(e, h) == h && LowerExpr(e, b, base).Some?
    ensures Follows(LowerExpr(e, b, base).value, e, h)
  {
    hide LowerExpr, Follows, Under, InferExpr, ExprType, Below, Merge, Settled, SameShape, Select, AllBelow, Tidy;
    ClosedParts(e, h);
    match e
    case Literal(_) =>
      LeafFollows(e, b, h, base);
    case Name(_) =>
      LeafFollows(e, b, h, base);
    case Assign(name, _, right) =>
      AssignLowers(e, b, base);
      LoweredFollows(right, b, h, base);
      AssignFollows(e, b, h, base);
    case BinaryExpr(op, left, right) =>
      LoweredStart(e, b, base);
      LoweredFollows(left, b, h, base);
      FollowsOn(left, b, h, base);
      var l := LowerExpr(left, b, base).value.after;
      LoweredFollows(right, l, h, if IsLogical(op) then base else base + 1);
      if IsLogical(op) {
        LogicalFollows(e, b, h, base);
      } else {
        BinaryFollows(e, b, h, base);
      }
    case Conditional(condition, yes, no) =>
      ConditionalLowers(e, b, base);
      LoweredFollows(condition, b, h, base);
      FollowsOn(condition, b, h, base);
      var c := LowerExpr(condition, b, base).value.after;
      LoweredFollows(yes, c, h, base);
      LoweredFollows(no, c, h, base);
      ConditionalFollows(e, b, h, base);
    case Sequence(left, right) =>
      SequenceLowers(e, b, base);
      LoweredFollows(left, b, h, base);
      FollowsOn(left, b, h, base);
      LoweredFollows(right, LowerExpr(left, b, base).value.after, h, base);
      SequenceFollows(e, b, h, base);
  }

  lemma LoweredStart(e: Expr, b: Bindings, base: nat)
    requires e.BinaryExpr? && LowerExpr(e, b, base).Some?
    ensures LowerExpr(e.left, b, base).Some?
    ensures LowerExpr(e.right, LowerExpr(e.left, b, base).value.after, if IsLogical(e.op) then base else base + 1).Some?
  {
    hide LowerExpr;
    if IsLogical(e.op) {
      LogicalLowers(e, b, base);
    } else {
      BinaryLowers(e, b, base);
    }
  }

  lemma FollowsOn(e: Expr, b: Bindings, h: Bindings, base: nat)
    requires LowerExpr(e, b, base).Some? && Follows(LowerExpr(e, b, base).value, e, h)
    ensures Under(LowerExpr(e, b, base).value.after, h) && LowerExpr(e, b, base).value.after.Keys == b.Keys
  {
    hide LowerExpr, Under, AllBelow;
    LoweredBinds(e, b, base);
  }

  lemma LeafFollows(e: Expr, b: Bindings, h: Bindings, base: nat)
    requires (e.Literal? || e.Name?) && Simple(e) && Under(b, h) && ExprBound(e, b.Keys)
    requires LowerExpr(e, b, base).Some?
    ensures Follows(LowerExpr(e, b, base).value, e, h)
  {
    hide Below;
    if e.Name? {
      assert BindingBelow(b[e.name], h[e.name]);
    } else {
      var t := TypeOf(e.value);
      MergeIsLeastUpperBound(t, t, t);
    }
  }

  lemma AssignFollows(e: Expr, b: Bindings, h: Bindings, base: nat)
    requires e.Assign? && e.operator.None? && Under(b, h) && LowerExpr(e, b, base).Some?
    requires LowerExpr(e.right, b, base).Some? && Follows(LowerExpr(e.right, b, base).value, e.right, h)
    requires Observe(h, e.name, Assigned(e.operator, e.right, h)) == h
    ensures Follows(LowerExpr(e, b, base).value, e, h)
  {
    hide LowerExpr, Under, Below, Settled, Retype, Observe;
    AssignLowers(e, b, base);
    LoweredBinds(e.right, b, base);
    var r, t := LowerExpr(e.right, b, base).value, Assigned(e.operator, e.right, h);
    UnderAt(b, h, e.name);
    ObservedBelow(h, e.name, t);
    AboveUnknown(r.ty);
    MergeIsLeastUpperBound(r.ty, t, h[e.name].ty.value);
    RetypeUnder(r.after, h, e.name, r.ty);
  }

  lemma AboveUnknown(t: RegType)
    ensures Below(t, TUnknown)
  {
  }

  lemma UnderAt(b: Bindings, h: Bindings, name: string)
    requires Under(b, h) && name in b
    ensures name in h && h[name].ty.Some?
  {
  }

  /** A compound assignment by itself: the inference takes any type for it. */
  lemma CompoundFollows(e: Expr, b: Bindings, h: Bindings, base: nat)
    requires e.Assign? && e.operator.Some? && Simple(e.right) && Under(b, h) && ExprBound(e, b.Keys)
    requires InferExpr(e, h) == h && LowerExpr(e, b, base).Some?
    ensures Under(LowerExpr(e, b, base).value.after, h) && Settled(LowerExpr(e, b, base).value.ty)
  {
    hide LowerExpr, Under, Below, Settled, Retype, Observe, InferExpr, ExprType, SelectCompound;
    ClosedParts(e, h);
    CompoundLowers(e, b, base);
    LoweredFollows(e.right, b, h, base + 1);
    LoweredBinds(e.right, b, base + 1);
    var r := LowerExpr(e.right, b, base + 1).value;
    var last := SelectCompound(e.operator.value, b[e.name].ty.value, r.ty, base, base + 1).value;
    CompoundSettled(e.operator.value, b[e.name].ty.value, r.ty, base, base + 1);
    UnderAt(b, h, e.name);
    ObservedBelow(h, e.name, TUnknown);
    AboveUnknown(last.ty);
    MergeIsLeastUpperBound(last.ty, TUnknown, h[e.name].ty.value);
    RetypeUnder(r.after, h, e.name, last.ty);
  }

  lemma CompoundSettled(op: Binary, l: RegType, r: RegType, x: nat, y: nat)
    requires SelectCompound(op, l, r, x, y).Some?
    ensures Settled(SelectCompound(op, l, r, x, y).value.ty)
  {
  }

  lemma LogicalFollows(e: Expr, b: Bindings, h: Bindings, base: nat)
    requires e.BinaryExpr? && IsLogical(e.op) && LowerExpr(e, b, base).Some?
    requires LowerExpr(e.left, b, base).Some? && Follows(LowerExpr(e.left, b, base).value, e.left, h)
    requires var l := LowerExpr(e.left, b, base).value.after;
      LowerExpr(e.right, l, base).Some? && Follows(LowerExpr(e.right, l, base).value, e.right, h)
    ensures Follows(LowerExpr(e, b, base).value, e, h)
  {
    hide LowerExpr, Under, Below, Settled, Merge, MergeBindings;
    LogicalLowers(e, b, base);
    var l := LowerExpr(e.left, b, base).value;
    var r := LowerExpr(e.right, l.after, base).value;
    MergeUnder(l.after, r.after, h);
    SettledMerge(l.ty, r.ty);
    var x, y := ExprType(e.left, h), ExprType(e.right, h);
    if x.Some? && y.Some? {
      MergeBelow(l.ty, r.ty, x.value, y.value);
    }
  }

  lemma BinaryFollows(e: Expr, b: Bindings, h: Bindings, base: nat)
    requires e.BinaryExpr? && !IsLogical(e.op) && LowerExpr(e, b, base).Some?
    requires Simple(e) && Under(b, h) && ExprBound(e, b.Keys)
    requires LowerExpr(e.left, b, base).Some? && Follows(LowerExpr(e.left, b, base).value, e.left, h)
    requires var l := LowerExpr(e.left, b, base).value.after;
      LowerExpr(e.right, l, base + 1).Some? && Follows(LowerExpr(e.right, l, base + 1).value, e.right, h)
    ensures Follows(LowerExpr(e, b, base).value, e, h)
  {
    hide LowerExpr, Below, Settled, Select, BinaryType, Tidy, IsLogical;
    BinaryLowers(e, b, base);
    var l := LowerExpr(e.left, b, base).value;
    var r := LowerExpr(e.right, l.after, base + 1).value;
    SelectFollows(e.op, l.ty, r.ty, base, base + 1);
    var x, y := ExprType(e.left, h), ExprType(e.right, h);
    if x.Some? && y.Some? {
      TypeSettled(e.left, h);
      TypeSettled(e.right, h);
      BinaryTypeBelow(e.op, l.ty, r.ty, x.value, y.value);
    }
  }

  lemma ConditionalFollows(e: Expr, b: Bindings, h: Bindings, base: nat)
    requires e.Conditional? && LowerExpr(e, b, base).Some? && LowerExpr(e.condition, b, base).Some?
    requires var c := LowerExpr(e.condition, b, base).value.after;
      && LowerExpr(e.yes, c, base).Some? && Follows(LowerExpr(e.yes, c, base).value, e.yes, h)
      && LowerExpr(e.no, c, base).Some? && Follows(LowerExpr(e.no, c, base).value, e.no, h)
    ensures Follows(LowerExpr(e, b, base).value, e, h)
  {
    hide LowerExpr, Under, Below, Settled, Merge;
    ConditionalLowers(e, b, base);
    var c := LowerExpr(e.condition, b, base).value.after;
    var y, n := LowerExpr(e.yes, c, base).value.ty, LowerExpr(e.no, c, base).value.ty;
    SettledMerge(y, n);
    var x, z := ExprType(e.yes, h), ExprType(e.no, h);
    if x.Some? && z.Some? {
      MergeBelow(y, n, x.value, z.value);
    }
  }

  lemma SequenceFollows(e: Expr, b: Bindings, h: Bindings, base: nat)
    requires e.Sequence? && LowerExpr(e, b, base).Some? && LowerExpr(e.left, b, base).Some?
    requires var l := LowerExpr(e.left, b, base).value.after;
      LowerExpr(e.right, l, base).Some? && Follows(LowerExpr(e.right, l, base).value, e.right, h)
    ensures Follows(LowerExpr(e, b, base).value, e, h)
  {
    hide LowerExpr, Under, Below, Settled;
    SequenceLowers(e, b, base);
  }
}
