/** The lowering of expressions. */
module ExpressionLowering {
  import opened Wrappers
  import opened Source
  import opened RegisterTypes
  import opened TypeInference
  import opened RegisterMachine

  /** The last register number: no register is given out that would leave none after it. */
  const LAST_REGISTER: nat := 0xFFFF

  /** The instructions that end a binary operation, and the type of what they answer. */
  datatype Selected = Selected(code: seq<Instr>, ty: RegType)

  function GenericType(op: Binary): (t: RegType) {
    if op.Add? then TPrimitive else if IsComparison(op) then TBoolean else TNumber
  }

  predicate EqualitySupported(l: RegType, r: RegType) {
    l.TUnknown? || r.TUnknown? || (IsPrimitive(l) && IsPrimitive(r)) || (IsObject(l) && IsObject(r))
  }

  /** Which instruction a binary operator becomes, by the types of its operands. */
  function Select(op: Binary, lt: RegType, rt: RegType, l: nat, r: nat): (s: Option<Selected>)
    ensures s.Some? ==> |s.value.code| == SelectedLen(op)
  {
    if (op.Add? || IsArithmetic(op)) && IsNumeric(lt) && IsNumeric(rt) then Some(Selected([Typed(op, r)], TNumber))
    else if op.Add? && lt.TString? && rt.TString? then Some(Selected([Typed(op, r)], TString))
    else if IsComparison(op) && lt.TNumber? && rt.TNumber? then Some(Selected([Typed(op, r)], TBoolean))
    else if op.Add? || IsArithmetic(op) || IsComparison(op) then Some(Selected([Generic(op, l, r)], GenericType(op)))
    else if IsBitwise(op) then
      if ConvertsToPrimitive(lt) && ConvertsToPrimitive(rt) then Some(Selected([Bitwise(op, r)], TNumber)) else None
    else if op.StrictEq? then Some(Selected([TestStrictEqual(r)], TBoolean))
    else if op.StrictNe? then Some(Selected([TestStrictEqual(r), LogicalNot], TBoolean))
    else if op.Eq? && EqualitySupported(lt, rt) then Some(Selected([TestEqual(r)], TBoolean))
    else if op.Ne? && EqualitySupported(lt, rt) then Some(Selected([TestEqual(r), LogicalNot], TBoolean))
    else None
  }

  /** Which instruction a compound assignment's operator becomes. */
  function SelectCompound(op: Binary, lt: RegType, rt: RegType, l: nat, r: nat): (s: Option<Selected>)
    ensures s.Some? ==> |s.value.code| == 1
  {
    if op.Add? && lt.TString? && rt.TString? then Some(Selected([Typed(op, r)], TString))
    else if op.Add? || op.Sub? || op.Mul? || op.Div? || op.Rem? then
      if IsNumeric(lt) && IsNumeric(rt) then Some(Selected([Typed(op, r)], TNumber))
      else Some(Selected([Generic(op, l, r)], GenericType(op)))
    else if (op.Pow? || IsBitwise(op)) && ConvertsToPrimitive(lt) && ConvertsToPrimitive(rt) then
      Some(Selected([if op.Pow? then Generic(op, l, r) else Bitwise(op, r)], TNumber))
    else None
  }

  function SelectedLen(op: Binary): (n: nat) {
    if op.Ne? || op.StrictNe? then 2 else 1
  }

  /** What an expression is lowered to: it leaves its value, of type `ty`, in the accumulator. */
  datatype Lowered = Lowered(code: seq<Instr>, ty: RegType, after: Bindings)

  function ExprLen(e: Expr): (n: nat) {
    match e
    case Literal(_) => 1
    case Name(_) => 1
    case Assign(_, operator, right) => if operator.None? then ExprLen(right) + 1 else ExprLen(right) + 6
    case BinaryExpr(op, left, right) =>
      if IsLogical(op) then ExprLen(left) + 1 + ExprLen(right) else ExprLen(left) + ExprLen(right) + 3 + SelectedLen(op)
    case Conditional(condition, yes, no) => ExprLen(condition) + 1 + ExprLen(yes) + 1 + ExprLen(no)
    case Sequence(left, right) => ExprLen(left) + ExprLen(right)
  }

  function ShortCircuit(op: Binary, offset: int): (i: Instr) {
    match op
    case And => JumpIfFalse(offset)
    case Or => JumpIfTrue(offset)
    case _ => JumpIfNotNullish(offset)
  }

  function LogicalCode(op: Binary, left: seq<Instr>, right: seq<Instr>): (code: seq<Instr>)
    ensures |code| == |left| + 1 + |right|
  {
    left + ([ShortCircuit(op, |right|)] + right)
  }

  function ChoiceCode(condition: seq<Instr>, yes: seq<Instr>, no: seq<Instr>): (code: seq<Instr>)
    ensures |code| == |condition| + 1 + |yes| + 1 + |no|
  {
    condition + ([JumpIfFalse(|yes| + 1)] + (yes + ([Jump(|no|)] + no)))
  }

  function BinaryCode(base: nat, left: seq<Instr>, right: seq<Instr>, last: seq<Instr>): (code: seq<Instr>)
    ensures |code| == |left| + |right| + 3 + |last|
  {
    left + ([Star(base)] + (right + ([Star(base + 1)] + ([Ldar(base)] + last))))
  }

  function CompoundCode(register: nat, base: nat, right: seq<Instr>, last: seq<Instr>): (code: seq<Instr>)
    ensures |code| == |right| + 5 + |last|
  {
    BinaryCode(base, [Ldar(register)], right, last) + [Star(register)]
  }

  /** A register that may be assigned: mutable, initialized, and no function's own name. */
  predicate Assignable(b: Bindings, name: string) {
    name in b && b[name].mutable && b[name].ty.Some? && !b[name].stable
  }

  function Retype(b: Bindings, name: string, ty: RegType): (r: Bindings)
    requires name in b
    ensures r.Keys == b.Keys
  {
    b[name := b[name].(ty := Some(ty))]
  }

  /** The lowering of an expression; registers from `base` on are free. Nothing when it is refused. */
  function LowerExpr(e: Expr, b: Bindings, base: nat): (r: Option<Lowered>)
    ensures r.Some? ==> |r.value.code| == ExprLen(e)
  {
    hide LogicalCode, ChoiceCode, BinaryCode, CompoundCode, Select, SelectCompound, Merge, MergeBindings;
    match e
    case Literal(value) => Some(Lowered([Lda(value)], TypeOf(value), b))
    case Name(name) =>
      if name in b && b[name].ty.Some? then Some(Lowered([Ldar(b[name].register)], b[name].ty.value, b)) else None
    case Sequence(left, right) =>
      var l := LowerExpr(left, b, base);
      if l.None? then None else
      var r := LowerExpr(right, l.value.after, base);
      if r.None? then None else
      Some(Lowered(l.value.code + r.value.code, r.value.ty, r.value.after))
    case Conditional(condition, yes, no) =>
      var c := LowerExpr(condition, b, base);
      if c.None? then None else
      var y, n := LowerExpr(yes, c.value.after, base), LowerExpr(no, c.value.after, base);
      if y.None? || n.None? || n.value.after != y.value.after then None else
      Some(Lowered(ChoiceCode(c.value.code, y.value.code, n.value.code), Merge(y.value.ty, n.value.ty), y.value.after))
    case BinaryExpr(op, left, right) =>
      var l := LowerExpr(left, b, base);
      if l.None? then None
      else if IsLogical(op) then
        var r := LowerExpr(right, l.value.after, base);
        if r.None? then None else
        var after := MergeBindings(l.value.after, r.value.after);
        if after.None? then None else
        Some(Lowered(LogicalCode(op, l.value.code, r.value.code), Merge(l.value.ty, r.value.ty), after.value))
      else if base + 2 > LAST_REGISTER then None
      else
        var r := LowerExpr(right, l.value.after, base + 1);
        if r.None? then None else
        var last := Select(op, l.value.ty, r.value.ty, base, base + 1);
        if last.None? then None else
        Some(Lowered(BinaryCode(base, l.value.code, r.value.code, last.value.code), last.value.ty, r.value.after))
    case Assign(name, operator, right) =>
      if !Assignable(b, name) then None
      else if operator.None? then
        var r := LowerExpr(right, b, base);
        if r.None? || name !in r.value.after then None else
        Some(Lowered(r.value.code + [Star(b[name].register)], r.value.ty, Retype(r.value.after, name, r.value.ty)))
      else if base + 2 > LAST_REGISTER then None
      else
        var r := LowerExpr(right, b, base + 1);
        if r.None? || name !in r.value.after then None else
        var last := SelectCompound(operator.value, b[name].ty.value, r.value.ty, base, base + 1);
        if last.None? then None else
        Some(Lowered(CompoundCode(b[name].register, base, r.value.code, last.value.code), last.value.ty,
          Retype(r.value.after, name, last.value.ty)))
  }
}
