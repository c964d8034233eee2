/** Which instruction an operator becomes, by the values its operands can have. */
module TypedInstructions {
  import opened Wrappers
  import opened Source
  import opened RegisterTypes
  import opened RegisterMachine
  import opened ExpressionLowering

  /** Numbers are of the type, and nothing but numbers is. */
  ghost predicate OnlyNumbers(t: RegType) {
    Inhabits(Number(0), t) && forall v | Inhabits(v, t) :: v.Number?
  }

  /** Numbers are of the type, and nothing but numbers and undefined is. */
  ghost predicate OnlyNumeric(t: RegType) {
    Inhabits(Number(0), t) && forall v | Inhabits(v, t) :: v.Number? || v.Undefined?
  }

  ghost predicate OnlyStrings(t: RegType) {
    Inhabits(String([]), t) && forall v | Inhabits(v, t) :: v.String?
  }

  lemma TypesByValues(t: RegType)
    ensures OnlyNumbers(t) <==> t.TNumber?
    ensures OnlyNumeric(t) <==> IsNumeric(t)
    ensures OnlyStrings(t) <==> t.TString?
  {
    assert Inhabits(Null, TPrimitive) && Inhabits(Null, TUnknown) && Inhabits(Undefined, TNumberOrUndefined);
  }

  /** A typed instruction is selected exactly for numbers, with undefined where it converts to one, and for
      two strings that are joined. */
  lemma TypedExactly(op: Binary, lt: RegType, rt: RegType, l: nat, r: nat)
    requires Select(op, lt, rt, l, r).Some?
    ensures Select(op, lt, rt, l, r).value.code == [Typed(op, r)] <==>
      || ((op.Add? || IsArithmetic(op)) && OnlyNumeric(lt) && OnlyNumeric(rt))
      || (op.Add? && OnlyStrings(lt) && OnlyStrings(rt))
      || (IsComparison(op) && OnlyNumbers(lt) && OnlyNumbers(rt))
  {
    hide OnlyNumbers, OnlyNumeric, OnlyStrings, EqualitySupported, ConvertsToPrimitive;
    TypesByValues(lt);
    TypesByValues(rt);
  }

  /** The same for compound assignment, but that a power has none. */
  lemma TypedCompound(op: Binary, lt: RegType, rt: RegType, l: nat, r: nat)
    requires SelectCompound(op, lt, rt, l, r).Some?
    ensures SelectCompound(op, lt, rt, l, r).value.code == [Typed(op, r)] <==>
      || ((op.Add? || (IsArithmetic(op) && !op.Pow?)) && OnlyNumeric(lt) && OnlyNumeric(rt))
      || (op.Add? && OnlyStrings(lt) && OnlyStrings(rt))
  {
    hide OnlyNumbers, OnlyNumeric, OnlyStrings, ConvertsToPrimitive;
    TypesByValues(lt);
    TypesByValues(rt);
  }
}
