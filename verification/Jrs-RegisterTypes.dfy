/** The types the register lowering tracks, and the bindings it tracks them for. */
module RegisterTypes {
  import opened Wrappers
  import opened Source

  datatype RegType =
    | TArray(id: nat)
    | TFunction(id: nat)
    | TNativeFunction(id: nat)
    | TObject(id: nat)
    | TNumber
    | TNumberOrUndefined
    | TBoolean
    | TNull
    | TPrimitive
    | TString
    | TUnknown
    | TUndefined

  predicate IsPrimitive(t: RegType) {
    !t.TArray? && !t.TFunction? && !t.TNativeFunction? && !t.TObject? && !t.TUnknown?
  }

  predicate IsObject(t: RegType) {
    t.TArray? || t.TFunction? || t.TObject?
  }

  /** A value of any other type may not leave a script. */
  predicate IsReturnable(t: RegType) {
    IsPrimitive(t) || IsObject(t) || t.TUnknown?
  }

  predicate IsNumeric(t: RegType) {
    t.TNumber? || t.TNumberOrUndefined?
  }

  predicate ConvertsToPrimitive(t: RegType) {
    IsPrimitive(t) || t.TUnknown?
  }

  function Merge(a: RegType, b: RegType): (r: RegType) {
    if a == b then a
    else if (IsNumeric(a) || a.TUndefined?) && (IsNumeric(b) || b.TUndefined?) then TNumberOrUndefined
    else if IsPrimitive(a) && IsPrimitive(b) then TPrimitive
    else TUnknown
  }

  /** The values of a type. No value of the fragment is an object. */
  predicate Inhabits(v: Value, t: RegType) {
    match t
    case TNumber => v.Number?
    case TNumberOrUndefined => v.Number? || v.Undefined?
    case TBoolean => v.Boolean?
    case TNull => v.Null?
    case TString => v.String?
    case TUndefined => v.Undefined?
    case TPrimitive => true
    case TUnknown => true
    case _ => false
  }

  // ---------- the lattice ----------

  /** `b` covers `a`. */
  predicate Below(a: RegType, b: RegType) {
    || a == b || b.TUnknown? || (b.TPrimitive? && IsPrimitive(a))
    || (b.TNumberOrUndefined? && (a.TNumber? || a.TUndefined?))
  }

  /** How far up a type is. */
  function Height(t: RegType): (n: nat)
    ensures n <= 3
  {
    match t
    case TUnknown => 3
    case TPrimitive => 2
    case TNumberOrUndefined => 1
    case _ => 0
  }

  /** `Merge` is the least upper bound of a partial order in which no chain has more than four types. */
  lemma MergeIsLeastUpperBound(a: RegType, b: RegType, c: RegType)
    ensures Below(a, a)
    ensures Below(a, b) && Below(b, a) ==> a == b
    ensures Below(a, b) && Below(b, c) ==> Below(a, c)
    ensures Below(a, Merge(a, b)) && Below(b, Merge(a, b))
    ensures Below(a, c) && Below(b, c) ==> Below(Merge(a, b), c)
    ensures Below(a, b) && a != b ==> Height(a) < Height(b)
  {
  }

  /** The order is what `Merge` leaves alone. */
  lemma BelowIsMerge(a: RegType, b: RegType)
    ensures Below(a, b) <==> Merge(a, b) == b
  {
  }

  /** A wider type has every value of a narrower one. */
  lemma Widens(v: Value, a: RegType, b: RegType)
    requires Inhabits(v, a) && Below(a, b)
    ensures Inhabits(v, b)
  {
  }

  // ---------- bindings ----------

  datatype Binding = Binding(register: nat, ty: Option<RegType>, mutable: bool, stable: bool)

  type Bindings = map<string, Binding>

  /** The same binding but for its type, which is known of both or of neither. */
  predicate Alike(x: Binding, y: Binding) {
    x.register == y.register && x.mutable == y.mutable && x.stable == y.stable && (x.ty.Some? <==> y.ty.Some?)
  }

  ghost predicate SameShape(x: Bindings, y: Bindings) {
    x.Keys == y.Keys && forall n | n in x :: Alike(x[n], y[n])
  }

  function MergeBinding(x: Binding, y: Binding): (r: Binding)
    requires Alike(x, y)
  {
    x.(ty := if x.ty.Some? then Some(Merge(x.ty.value, y.ty.value)) else None)
  }

  predicate Mergeable(x: Bindings, y: Bindings) {
    |x| == |y| && forall n | n in x :: n in y && Alike(x[n], y[n])
  }

  function MergeBindings(x: Bindings, y: Bindings): (r: Option<Bindings>) {
    if Mergeable(x, y) then Some(map n | n in x :: MergeBinding(x[n], y[n])) else None
  }

  predicate Fits(actual: Bindings, expected: Bindings) {
    MergeBindings(actual, expected) == Some(expected)
  }

  predicate BindingBelow(x: Binding, y: Binding) {
    Alike(x, y) && (x.ty.Some? ==> Below(x.ty.value, y.ty.value))
  }

  ghost predicate AllBelow(x: Bindings, y: Bindings) {
    x.Keys == y.Keys && forall n | n in x :: BindingBelow(x[n], y[n])
  }

  lemma SameSize(x: Bindings, y: Bindings)
    requires |x| == |y| && x.Keys <= y.Keys
    ensures x.Keys == y.Keys
  {
    if x.Keys != y.Keys {
      assert x.Keys < y.Keys;
      Smaller(x.Keys, y.Keys);
    }
  }

  lemma {:induction false} Smaller(x: set<string>, y: set<string>)
    requires x < y
    ensures |x| < |y|
  {
    var n :| n in y && n !in x;
    if x == {} {
    } else {
      var k :| k in x;
      Smaller(x - {k}, y - {k});
    }
  }

  lemma MergeableKeys(x: Bindings, y: Bindings)
    requires Mergeable(x, y)
    ensures SameShape(x, y)
  {
    forall n | n in x.Keys ensures n in y.Keys {
    }
    SameSize(x, y);
  }

  /** The fit check is the pointwise order. */
  lemma FitsIsOrder(x: Bindings, y: Bindings)
    ensures Fits(x, y) <==> AllBelow(x, y)
  {
    if Fits(x, y) {
      MergeableKeys(x, y);
      forall n | n in x ensures BindingBelow(x[n], y[n]) {
        assert MergeBinding(x[n], y[n]) == y[n];
        if x[n].ty.Some? {
          BelowIsMerge(x[n].ty.value, y[n].ty.value);
        }
      }
    }
    if AllBelow(x, y) {
      assert |x| == |x.Keys| && |y| == |y.Keys|;
      forall n | n in x ensures n in y && Alike(x[n], y[n]) {
        assert BindingBelow(x[n], y[n]);
      }
      var merged := MergeBindings(x, y).value;
      forall n | n in merged ensures merged[n] == y[n] {
        assert BindingBelow(x[n], y[n]);
        if x[n].ty.Some? {
          BelowIsMerge(x[n].ty.value, y[n].ty.value);
        }
      }
      assert merged.Keys == y.Keys;
      assert merged == y;
    }
  }

  /** Both sides of a join fit what they join to, and whatever they both fit is above it. */
  lemma MergeBindingsIsLeast(x: Bindings, y: Bindings, z: Bindings)
    requires MergeBindings(x, y).Some?
    ensures AllBelow(x, MergeBindings(x, y).value) && AllBelow(y, MergeBindings(x, y).value)
    ensures AllBelow(x, z) && AllBelow(y, z) ==> AllBelow(MergeBindings(x, y).value, z)
  {
    MergeableKeys(x, y);
    var m := MergeBindings(x, y).value;
    forall n | n in x ensures BindingBelow(x[n], m[n]) && BindingBelow(y[n], m[n]) {
      assert Alike(x[n], y[n]);
      if x[n].ty.Some? {
        MergeIsLeastUpperBound(x[n].ty.value, y[n].ty.value, x[n].ty.value);
      }
    }
    if AllBelow(x, z) && AllBelow(y, z) {
      forall n | n in m ensures BindingBelow(m[n], z[n]) {
        assert BindingBelow(x[n], z[n]) && BindingBelow(y[n], z[n]);
        if x[n].ty.Some? {
          MergeIsLeastUpperBound(x[n].ty.value, y[n].ty.value, z[n].ty.value);
        }
      }
    }
  }
}
