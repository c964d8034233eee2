/** Which expressions the lowering accepts. */
module ExpressionAcceptance {
  import opened Wrappers
  import opened Source
  import opened RegisterTypes
  import opened RegisterMachine
  import opened ExpressionLowering
  import opened RegisterExpressions

  /** The operators a compound assignment may have. */
  predicate Compounds(op: Binary) {
    op.Add? || op.Sub? || op.Mul? || op.Div? || op.Rem? || op.Pow? || IsBitwise(op)
  }

  /** Names that are read have a value, and names that are assigned may be. */
  predicate Sound(e: Expr, b: Bindings) {
    match e
    case Literal(_) => true
    case Name(name) => name in b && b[name].ty.Some?
    case Assign(name, operator, right) =>
      && name in b && b[name].ty.Some? && b[name].mutable && !b[name].stable
      && (operator.Some? ==> Compounds(operator.value)) && Sound(right, b)
    case BinaryExpr(_, left, right) => Sound(left, b) && Sound(right, b)
    case Conditional(condition, yes, no) => Sound(condition, b) && Sound(yes, b) && Sound(no, b)
    case Sequence(left, right) => Sound(left, b) && Sound(right, b)
  }

  function Most(x: nat, y: nat): (z: nat) {
    if x < y then y else x
  }

  /** How many registers an expression needs besides those of the bindings: an operator keeps both its
      operands, and its left one while it computes the right one. */
  function Registers(e: Expr): (n: nat) {
    match e
    case Literal(_) => 0
    case Name(_) => 0
    case Assign(_, operator, right) => if operator.None? then Registers(right) else Most(2, 1 + Registers(right))
    case BinaryExpr(op, left, right) =>
      if IsLogical(op) then Most(Registers(left), Registers(right))
      else Most(Registers(left), Most(2, 1 + Registers(right)))
    case Conditional(condition, yes, no) => Most(Registers(condition), Most(Registers(yes), Registers(no)))
    case Sequence(left, right) => Most(Registers(left), Registers(right))
  }

  /** Nothing is assigned. */
  predicate Pure(e: Expr) {
    match e
    case Literal(_) => true
    case Name(_) => true
    case Assign(_, _, _) => false
    case BinaryExpr(_, left, right) => Pure(left) && Pure(right)
    case Conditional(condition, yes, no) => Pure(condition) && Pure(yes) && Pure(no)
    case Sequence(left, right) => Pure(left) && Pure(right)
  }

  /** Nothing is assigned in an arm of a conditional. */
  predicate PureArms(e: Expr) {
    match e
    case Literal(_) => true
    case Name(_) => true
    case Assign(_, _, right) => PureArms(right)
    case BinaryExpr(_, left, right) => PureArms(left) && PureArms(right)
    case Conditional(condition, yes, no) => PureArms(condition) && Pure(yes) && Pure(no)
    case Sequence(left, right) => PureArms(left) && PureArms(right)
  }

  /** No binding is of a type of objects. */
  ghost predicate Plain(b: Bindings) {
    forall n | n in b && b[n].ty.Some? :: ConvertsToPrimitive(b[n].ty.value)
  }

  lemma {:induction false} PureIsPureArms(e: Expr)
    requires Pure(e)
    ensures PureArms(e)
  {
    match e
    case BinaryExpr(_, left, right) =>
      PureIsPureArms(left);
      PureIsPureArms(right);
    case Conditional(condition, yes, no) =>
      PureIsPureArms(condition);
    case Sequence(left, right) =>
      PureIsPureArms(left);
      PureIsPureArms(right);
    case _ =>
  }

  /** What is sound depends on no type. */
  lemma {:induction false} SoundAlike(e: Expr, b: Bindings, c: Bindings)
    requires SameShape(b, c)
    ensures Sound(e, b) <==> Sound(e, c)
  {
    match e
    case Literal(_) =>
    case Name(name) =>
      assert name in b ==> Alike(b[name], c[name]);
    case Assign(name, _, right) =>
      assert name in b ==> Alike(b[name], c[name]);
      SoundAlike(right, b, c);
    case BinaryExpr(_, left, right) =>
      SoundAlike(left, b, c);
      SoundAlike(right, b, c);
    case Conditional(condition, yes, no) =>
      SoundAlike(condition, b, c);
      SoundAlike(yes, b, c);
      SoundAlike(no, b, c);
    case Sequence(left, right) =>
      SoundAlike(left, b, c);
      SoundAlike(right, b, c);
  }

  lemma ShapeThen(b: Bindings, c: Bindings, d: Bindings)
    requires SameShape(b, c) && SameShape(c, d)
    ensures SameShape(b, d)
  {
    forall n | n in b ensures Alike(b[n], d[n]) {
      assert Alike(b[n], c[n]) && Alike(c[n], d[n]);
    }
  }

  lemma ShapeBack(b: Bindings, c: Bindings)
    requires SameShape(b, c)
    ensures SameShape(c, b)
  {
    forall n | n in c ensures Alike(c[n], b[n]) {
      assert Alike(b[n], c[n]);
    }
  }

  lemma MergeSame(b: Bindings, c: Bindings)
    requires SameShape(b, c)
    ensures MergeBindings(b, c).Some? && SameShape(b, MergeBindings(b, c).value)
    ensures b == c ==> MergeBindings(b, c).value == b
  {
    assert |b| == |b.Keys| && |c| == |c.Keys|;
    if b == c {
      FitsIsOrder(b, b);
    }
  }

  // ---------- whatever is accepted is sound and has its registers ----------

  lemma {:induction false} AcceptedIsSound(e: Expr, b: Bindings, base: nat)
    requires base <= LAST_REGISTER && LowerExpr(e, b, base).Some?
    ensures Sound(e, b) && base + Registers(e) <= LAST_REGISTER
  {
    hide LogicalCode, ChoiceCode, BinaryCode, CompoundCode, Select, SelectCompound, Merge, SameShape, MergeBindings;
    match e
    case Literal(_) =>
    case Name(_) =>
    case Assign(name, operator, right) =>
      var at := if operator.None? then base else base + 1;
      AcceptedIsSound(right, b, at);
      if operator.Some? {
        CompoundSelected(operator.value, b[name].ty.value, LowerExpr(right, b, at).value.ty, base, base + 1);
      }
    case BinaryExpr(op, left, right) =>
      AcceptedIsSound(left, b, base);
      LoweredBinds(left, b, base);
      var l := LowerExpr(left, b, base).value;
      AcceptedIsSound(right, l.after, if IsLogical(op) then base else base + 1);
      SoundAlike(right, b, l.after);
    case Conditional(condition, yes, no) =>
      AcceptedIsSound(condition, b, base);
      LoweredBinds(condition, b, base);
      var c := LowerExpr(condition, b, base).value;
      AcceptedIsSound(yes, c.after, base);
      AcceptedIsSound(no, c.after, base);
      SoundAlike(yes, b, c.after);
      SoundAlike(no, b, c.after);
    case Sequence(left, right) =>
      AcceptedIsSound(left, b, base);
      LoweredBinds(left, b, base);
      var l := LowerExpr(left, b, base).value;
      AcceptedIsSound(right, l.after, base);
      SoundAlike(right, b, l.after);
  }

  lemma RetypeShape(b: Bindings, c: Bindings, name: string, ty: RegType)
    requires SameShape(b, c) && Assignable(b, name)
    ensures name in c && SameShape(b, Retype(c, name, ty))
  {
    assert Alike(b[name], c[name]);
  }

  /** What the lowering knows a value to be. */
  datatype Nature = Primitive | Object | Native | Anything

  function NatureOf(t: RegType): (n: Nature) {
    match t
    case TUnknown => Anything
    case TNativeFunction(_) => Native
    case TArray(_) => Object
    case TFunction(_) => Object
    case TObject(_) => Object
    case _ => Primitive
  }

  /** Two natures that an equality test has no instruction for: different ones, or two built-in functions. */
  predicate Clash(l: Nature, r: Nature) {
    l != Anything && r != Anything && (l != r || l == Native)
  }

  predicate BothConvert(l: Nature, r: Nature) {
    (l == Primitive || l == Anything) && (r == Primitive || r == Anything)
  }

  lemma NaturesAre(l: RegType, r: RegType)
    ensures EqualitySupported(l, r) <==> !Clash(NatureOf(l), NatureOf(r))
    ensures ConvertsToPrimitive(l) && ConvertsToPrimitive(r) <==> BothConvert(NatureOf(l), NatureOf(r))
  {
  }

  /** Which operators are refused, whatever the types are. */
  lemma RefusedOperators(op: Binary, lt: RegType, rt: RegType, l: nat, r: nat)
    ensures Select(op, lt, rt, l, r).None? <==>
      || IsLogical(op)
      || (IsBitwise(op) && !BothConvert(NatureOf(lt), NatureOf(rt)))
      || ((op.Eq? || op.Ne?) && Clash(NatureOf(lt), NatureOf(rt)))
  {
    hide EqualitySupported, ConvertsToPrimitive, Clash, BothConvert, NatureOf;
    NaturesAre(lt, rt);
  }

  lemma RefusedCompounds(op: Binary, lt: RegType, rt: RegType, l: nat, r: nat)
    ensures SelectCompound(op, lt, rt, l, r).None? <==>
      !Compounds(op) || ((op.Pow? || IsBitwise(op)) && !BothConvert(NatureOf(lt), NatureOf(rt)))
  {
    hide ConvertsToPrimitive, BothConvert, NatureOf;
    NaturesAre(lt, rt);
  }

  lemma CompoundSelected(op: Binary, lt: RegType, rt: RegType, l: nat, r: nat)
    ensures SelectCompound(op, lt, rt, l, r).Some? ==> Compounds(op)
    ensures Compounds(op) && ConvertsToPrimitive(lt) && ConvertsToPrimitive(rt) ==>
      SelectCompound(op, lt, rt, l, r).Some?
    ensures SelectCompound(op, lt, rt, l, r).Some? ==> IsPrimitive(SelectCompound(op, lt, rt, l, r).value.ty)
  {
  }

  lemma Selects(op: Binary, lt: RegType, rt: RegType, l: nat, r: nat)
    requires !IsLogical(op) && ConvertsToPrimitive(lt) && ConvertsToPrimitive(rt)
    ensures Select(op, lt, rt, l, r).Some? && IsPrimitive(Select(op, lt, rt, l, r).value.ty)
  {
  }

  // ---------- and without objects that is enough ----------

  /** The expression is accepted, and what comes of it is no object either. */
  ghost predicate Taken(e: Expr, b: Bindings, base: nat) {
    var r := LowerExpr(e, b, base);
    && r.Some? && ConvertsToPrimitive(r.value.ty) && Plain(r.value.after) && SameShape(b, r.value.after)
    && (Pure(e) ==> r.value.after == b)
  }

  lemma {:induction false} SoundIsAccepted(e: Expr, b: Bindings, base: nat)
    requires base + Registers(e) <= LAST_REGISTER && Plain(b) && PureArms(e) && Sound(e, b)
    ensures Taken(e, b, base)
  {
    hide LowerExpr, Taken, Plain, SameShape;
    match e
    case Literal(_) =>
      LeafTaken(e, b, base);
    case Name(_) =>
      LeafTaken(e, b, base);
    case Assign(name, operator, right) =>
      SoundIsAccepted(right, b, if operator.None? then base else base + 1);
      if operator.None? {
        AssignTaken(e, b, base);
      } else {
        CompoundTaken(e, b, base);
      }
    case BinaryExpr(op, left, right) =>
      SoundIsAccepted(left, b, base);
      TakenIs(left, b, base);
      var l := LowerExpr(left, b, base).value;
      SoundAlike(right, b, l.after);
      SoundIsAccepted(right, l.after, if IsLogical(op) then base else base + 1);
      if IsLogical(op) {
        LogicalTaken(e, b, base);
      } else {
        BinaryTaken(e, b, base);
      }
    case Conditional(condition, yes, no) =>
      SoundIsAccepted(condition, b, base);
      TakenIs(condition, b, base);
      var c := LowerExpr(condition, b, base).value;
      PureIsPureArms(yes);
      PureIsPureArms(no);
      SoundAlike(yes, b, c.after);
      SoundAlike(no, b, c.after);
      SoundIsAccepted(yes, c.after, base);
      SoundIsAccepted(no, c.after, base);
      ConditionalTaken(e, b, base);
    case Sequence(left, right) =>
      SoundIsAccepted(left, b, base);
      TakenIs(left, b, base);
      var l := LowerExpr(left, b, base).value;
      SoundAlike(right, b, l.after);
      SoundIsAccepted(right, l.after, base);
      SequenceTaken(e, b, base);
  }

  lemma TakenIs(e: Expr, b: Bindings, base: nat)
    requires Taken(e, b, base)
    ensures var r := LowerExpr(e, b, base);
      r.Some? && ConvertsToPrimitive(r.value.ty) && Plain(r.value.after) && SameShape(b, r.value.after)
  {
  }

  lemma LeafTaken(e: Expr, b: Bindings, base: nat)
    requires (e.Literal? || e.Name?) && Sound(e, b) && Plain(b)
    ensures Taken(e, b, base)
  {
  }

  lemma AssignTaken(e: Expr, b: Bindings, base: nat)
    requires e.Assign? && e.operator.None? && Assignable(b, e.name) && Taken(e.right, b, base)
    ensures Taken(e, b, base)
  {
    hide SameShape;
    var r := LowerExpr(e.right, b, base).value;
    RetypeShape(b, r.after, e.name, r.ty);
  }

  lemma CompoundTaken(e: Expr, b: Bindings, base: nat)
    requires e.Assign? && e.operator.Some? && Compounds(e.operator.value) && Assignable(b, e.name) && Plain(b)
    requires base + 2 <= LAST_REGISTER && Taken(e.right, b, base + 1)
    ensures Taken(e, b, base)
  {
    hide SameShape, SelectCompound, CompoundCode;
    var r := LowerExpr(e.right, b, base + 1).value;
    CompoundSelected(e.operator.value, b[e.name].ty.value, r.ty, base, base + 1);
    var last := SelectCompound(e.operator.value, b[e.name].ty.value, r.ty, base, base + 1).value;
    RetypeShape(b, r.after, e.name, last.ty);
  }

  lemma LogicalTaken(e: Expr, b: Bindings, base: nat)
    requires e.BinaryExpr? && IsLogical(e.op) && Taken(e.left, b, base)
    requires Taken(e.right, LowerExpr(e.left, b, base).value.after, base)
    ensures Taken(e, b, base)
  {
    hide SameShape, MergeBindings, Merge, LogicalCode, ConvertsToPrimitive, Plain;
    var l := LowerExpr(e.left, b, base).value;
    var r := LowerExpr(e.right, l.after, base).value;
    MergeSame(l.after, r.after);
    ShapeThen(b, l.after, MergeBindings(l.after, r.after).value);
    PlainMerge(l.after, r.after);
    MergeConverts(l.ty, r.ty);
  }

  lemma BinaryTaken(e: Expr, b: Bindings, base: nat)
    requires e.BinaryExpr? && !IsLogical(e.op) && base + 2 <= LAST_REGISTER && Taken(e.left, b, base)
    requires Taken(e.right, LowerExpr(e.left, b, base).value.after, base + 1)
    ensures Taken(e, b, base)
  {
    hide SameShape, Select, BinaryCode, Plain, IsLogical;
    var l := LowerExpr(e.left, b, base).value;
    var r := LowerExpr(e.right, l.after, base + 1).value;
    ShapeThen(b, l.after, r.after);
    Selects(e.op, l.ty, r.ty, base, base + 1);
  }

  lemma ConditionalTaken(e: Expr, b: Bindings, base: nat)
    requires e.Conditional? && Taken(e.condition, b, base) && Pure(e.yes) && Pure(e.no)
    requires var c := LowerExpr(e.condition, b, base).value.after; Taken(e.yes, c, base) && Taken(e.no, c, base)
    ensures Taken(e, b, base)
  {
    hide SameShape, ChoiceCode, Plain, Merge, ConvertsToPrimitive;
    var c := LowerExpr(e.condition, b, base).value.after;
    MergeConverts(LowerExpr(e.yes, c, base).value.ty, LowerExpr(e.no, c, base).value.ty);
  }

  lemma SequenceTaken(e: Expr, b: Bindings, base: nat)
    requires e.Sequence? && Taken(e.left, b, base) && Taken(e.right, LowerExpr(e.left, b, base).value.after, base)
    ensures Taken(e, b, base)
  {
    hide SameShape, Plain, ConvertsToPrimitive;
    var l := LowerExpr(e.left, b, base).value.after;
    ShapeThen(b, l, LowerExpr(e.right, l, base).value.after);
  }

  lemma MergeConverts(a: RegType, b: RegType)
    requires ConvertsToPrimitive(a) && ConvertsToPrimitive(b)
    ensures ConvertsToPrimitive(Merge(a, b))
  {
  }

  lemma PlainMerge(b: Bindings, c: Bindings)
    requires MergeBindings(b, c).Some? && Plain(b) && Plain(c)
    ensures Plain(MergeBindings(b, c).value)
  {
    hide ConvertsToPrimitive, Merge;
    var m := MergeBindings(b, c).value;
    forall n | n in m && m[n].ty.Some? ensures ConvertsToPrimitive(m[n].ty.value) {
      assert m[n] == MergeBinding(b[n], c[n]);
      MergeConverts(b[n].ty.value, c[n].ty.value);
    }
  }

  /** Where no binding is of a type of objects and no arm of a conditional assigns, an expression is
      accepted exactly when it is sound and there are registers for it. */
  lemma AcceptedExactly(e: Expr, b: Bindings, base: nat)
    requires base <= LAST_REGISTER && Plain(b) && PureArms(e)
    ensures LowerExpr(e, b, base).Some? <==> Sound(e, b) && base + Registers(e) <= LAST_REGISTER
  {
    hide LowerExpr, Sound, Registers, PureArms;
    if LowerExpr(e, b, base).Some? {
      AcceptedIsSound(e, b, base);
    } else if Sound(e, b) && base + Registers(e) <= LAST_REGISTER {
      SoundIsAccepted(e, b, base);
      TakenIs(e, b, base);
    }
  }
}
