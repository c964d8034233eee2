/** Lowered expressions compute what the source means, and what they compute has the tracked type. */
module RegisterExpressions {
  import opened Wrappers
  import opened Source
  import opened Machines
  import opened CodeLayout
  import opened RegisterTypes
  import opened RegisterMachine
  import opened ExpressionLowering

  // ---------- registers and bindings ----------

  /** Every binding has a register of its own below `floor`. */
  ghost predicate Placed(b: Bindings, floor: nat) {
    && floor <= REGISTERS
    && (forall x | x in b :: b[x].register < floor)
    && (forall x, y | x in b && y in b && x != y :: b[x].register != b[y].register)
  }

  ghost predicate Tracks(x: Binding, value: Value) {
    x.ty.Some? && Inhabits(value, x.ty.value)
  }

  /** The registers hold the bindings, and each value is of the type tracked for it. */
  ghost predicate Match(b: Bindings, env: Env, regs: seq<Value>, floor: nat) {
    && |regs| == REGISTERS && Placed(b, floor) && env.Keys == b.Keys
    && forall x | x in b :: regs[b[x].register] == env[x] && Tracks(b[x], env[x])
  }

  /** Registers in use above the bindings are left alone. */
  ghost predicate Kept(regs: seq<Value>, regs': seq<Value>, floor: nat, base: nat) {
    |regs| == |regs'| && forall r | floor <= r < base && r < |regs| :: regs'[r] == regs[r]
  }

  lemma KeptThen(x: seq<Value>, y: seq<Value>, z: seq<Value>, floor: nat, base: nat, base': nat)
    requires Kept(x, y, floor, base) && Kept(y, z, floor, base') && base <= base'
    ensures Kept(x, z, floor, base)
  {
  }

  lemma KeptTemp(x: seq<Value>, y: seq<Value>, floor: nat, base: nat, r: nat, v: Value)
    requires Kept(x, y, floor, base) && base <= r < |y|
    ensures Kept(x, y[r := v], floor, base)
  {
  }

  lemma MatchTemp(b: Bindings, env: Env, regs: seq<Value>, floor: nat, r: nat, v: Value)
    requires Match(b, env, regs, floor) && floor <= r < REGISTERS
    ensures Match(b, env, regs[r := v], floor)
  {
  }

  lemma MatchStore(b: Bindings, env: Env, regs: seq<Value>, floor: nat, name: string, v: Value, ty: RegType)
    requires Match(b, env, regs, floor) && name in b && Inhabits(v, ty)
    ensures b[name].register < floor && Match(Retype(b, name, ty), env[name := v], regs[b[name].register := v], floor)
  {
    hide Inhabits, Retype;
    var b', env', register := Retype(b, name, ty), env[name := v], b[name].register;
    var regs' := regs[register := v];
    Retyped(b, name, ty);
    forall x | x in b' ensures regs'[b'[x].register] == env'[x] && Tracks(b'[x], env'[x]) {
      assert x in b;
      if x != name {
        assert b[x].register != register && Tracks(b[x], env[x]);
      }
    }
  }

  lemma Retyped(b: Bindings, name: string, ty: RegType)
    requires name in b
    ensures Retype(b, name, ty).Keys == b.Keys && Retype(b, name, ty)[name] == b[name].(ty := Some(ty))
    ensures forall x | x in b && x != name :: Retype(b, name, ty)[x] == b[x]
    ensures forall x | x in b :: Retype(b, name, ty)[x].register == b[x].register
  {
  }

  lemma KeptStore(x: seq<Value>, y: seq<Value>, floor: nat, base: nat, r: nat, v: Value)
    requires Kept(x, y, floor, base) && r < floor && r < |y|
    ensures Kept(x, y[r := v], floor, base)
  {
  }

  lemma MatchBelow(b: Bindings, b': Bindings, env: Env, regs: seq<Value>, floor: nat)
    requires Match(b, env, regs, floor) && AllBelow(b, b')
    ensures Match(b', env, regs, floor)
  {
    hide Below, Inhabits;
    forall x | x in b' ensures b'[x].register == b[x].register && Tracks(b'[x], env[x]) {
      assert BindingBelow(b[x], b'[x]) && Tracks(b[x], env[x]);
      Widens(env[x], b[x].ty.value, b'[x].ty.value);
    }
  }

  lemma MatchMerge(x: Bindings, y: Bindings, env: Env, regs: seq<Value>, floor: nat)
    requires MergeBindings(x, y).Some? && (Match(x, env, regs, floor) || Match(y, env, regs, floor))
    ensures Match(MergeBindings(x, y).value, env, regs, floor)
  {
    hide Match, MergeBindings;
    MergeBindingsIsLeast(x, y, x);
    if Match(x, env, regs, floor) {
      MatchBelow(x, MergeBindings(x, y).value, env, regs, floor);
    } else {
      MatchBelow(y, MergeBindings(x, y).value, env, regs, floor);
    }
  }

  lemma InMerge(v: Value, a: RegType, b: RegType)
    requires Inhabits(v, a) || Inhabits(v, b)
    ensures Inhabits(v, Merge(a, b))
  {
  }

  // ---------- the shape of bindings does not change ----------

  lemma {:induction false} LoweredBinds(e: Expr, b: Bindings, base: nat)
    requires LowerExpr(e, b, base).Some?
    ensures ExprBound(e, b.Keys) && SameShape(b, LowerExpr(e, b, base).value.after)
    decreases e
  {
    hide Select, SelectCompound, LogicalCode, ChoiceCode, BinaryCode, CompoundCode, Merge;
    match e
    case Literal(_) =>
    case Name(_) =>
    case Sequence(left, right) =>
      LoweredBinds(left, b, base);
      LoweredBinds(right, LowerExpr(left, b, base).value.after, base);
    case Conditional(condition, yes, no) =>
      LoweredBinds(condition, b, base);
      var c := LowerExpr(condition, b, base).value.after;
      LoweredBinds(yes, c, base);
      LoweredBinds(no, c, base);
    case BinaryExpr(op, left, right) =>
      LoweredBinds(left, b, base);
      var l := LowerExpr(left, b, base).value.after;
      if IsLogical(op) {
        LoweredBinds(right, l, base);
        MergeKeepsShape(l, LowerExpr(right, l, base).value.after);
      } else {
        LoweredBinds(right, l, base + 1);
      }
    case Assign(name, operator, right) =>
      LoweredBinds(right, b, if operator.None? then base else base + 1);
  }

  lemma MergeKeepsShape(x: Bindings, y: Bindings)
    requires MergeBindings(x, y).Some?
    ensures SameShape(x, MergeBindings(x, y).value)
  {
  }

  // ---------- one level of the lowering ----------

  lemma AssignLowers(e: Expr, b: Bindings, base: nat)
    requires e.Assign? && e.operator.None? && LowerExpr(e, b, base).Some?
    ensures Assignable(b, e.name) && LowerExpr(e.right, b, base).Some?
    ensures var r := LowerExpr(e.right, b, base).value;
      e.name in r.after && LowerExpr(e, b, base).value
        == Lowered(r.code + [Star(b[e.name].register)], r.ty, Retype(r.after, e.name, r.ty))
  {
    hide Retype;
  }

  lemma ConditionalLowers(e: Expr, b: Bindings, base: nat)
    requires e.Conditional? && LowerExpr(e, b, base).Some?
    ensures LowerExpr(e.condition, b, base).Some?
    ensures var c := LowerExpr(e.condition, b, base).value.after;
      LowerExpr(e.yes, c, base).Some? && LowerExpr(e.no, c, base).Some?
    ensures var c := LowerExpr(e.condition, b, base).value;
      var y, n := LowerExpr(e.yes, c.after, base).value, LowerExpr(e.no, c.after, base).value;
      y.after == n.after && LowerExpr(e, b, base).value
        == Lowered(ChoiceCode(c.code, y.code, n.code), Merge(y.ty, n.ty), y.after)
  {
    hide ChoiceCode, Merge;
  }

  lemma SequenceLowers(e: Expr, b: Bindings, base: nat)
    requires e.Sequence? && LowerExpr(e, b, base).Some?
    ensures LowerExpr(e.left, b, base).Some? && LowerExpr(e.right, LowerExpr(e.left, b, base).value.after, base).Some?
    ensures var l := LowerExpr(e.left, b, base).value;
      var r := LowerExpr(e.right, l.after, base).value;
      LowerExpr(e, b, base).value == Lowered(l.code + r.code, r.ty, r.after)
  {
  }

  lemma LogicalLowers(e: Expr, b: Bindings, base: nat)
    requires e.BinaryExpr? && IsLogical(e.op) && LowerExpr(e, b, base).Some?
    ensures LowerExpr(e.left, b, base).Some? && LowerExpr(e.right, LowerExpr(e.left, b, base).value.after, base).Some?
    ensures var l := LowerExpr(e.left, b, base).value;
      var r := LowerExpr(e.right, l.after, base).value;
      MergeBindings(l.after, r.after).Some? && LowerExpr(e, b, base).value
        == Lowered(LogicalCode(e.op, l.code, r.code), Merge(l.ty, r.ty), MergeBindings(l.after, r.after).value)
  {
    hide LogicalCode, Merge, MergeBindings;
  }

  lemma BinaryLowers(e: Expr, b: Bindings, base: nat)
    requires e.BinaryExpr? && !IsLogical(e.op) && LowerExpr(e, b, base).Some?
    ensures base + 2 <= LAST_REGISTER && LowerExpr(e.left, b, base).Some?
    ensures LowerExpr(e.right, LowerExpr(e.left, b, base).value.after, base + 1).Some?
    ensures var l := LowerExpr(e.left, b, base).value;
      var r := LowerExpr(e.right, l.after, base + 1).value;
      var last := Select(e.op, l.ty, r.ty, base, base + 1);
      last.Some? && LowerExpr(e, b, base).value
        == Lowered(BinaryCode(base, l.code, r.code, last.value.code), last.value.ty, r.after)
  {
    hide BinaryCode, Select;
  }

  lemma CompoundLowers(e: Expr, b: Bindings, base: nat)
    requires e.Assign? && e.operator.Some? && LowerExpr(e, b, base).Some?
    ensures base + 2 <= LAST_REGISTER && Assignable(b, e.name) && LowerExpr(e.right, b, base + 1).Some?
    ensures var r := LowerExpr(e.right, b, base + 1).value;
      var last := SelectCompound(e.operator.value, b[e.name].ty.value, r.ty, base, base + 1);
      e.name in r.after && last.Some? && LowerExpr(e, b, base).value
        == Lowered(CompoundCode(b[e.name].register, base, r.code, last.value.code), last.value.ty,
             Retype(r.after, e.name, last.value.ty))
  {
    hide CompoundCode, SelectCompound, Retype;
  }

  // ---------- running ----------

  lemma One(ops: Operators, code: seq<Instr>, a: State, b: State)
    requires Machine(ops, code)(a) == Some(b)
    ensures Reaches(Machine(ops, code), a, b)
  {
    hide Machine, Reaches;
    Here(Machine(ops, code), b);
    First(Machine(ops, code), a, b, b);
  }

  /** The expression stands where the machine is, and the registers hold its bindings. */
  ghost predicate Ready(ops: Operators, code: seq<Instr>, e: Expr, b: Bindings, base: nat, floor: nat, env: Env,
      st: State) {
    && Lawful(ops) && floor <= base && Match(b, env, st.regs, floor)
    && LowerExpr(e, b, base).Some? && CodeAt(code, st.pc, LowerExpr(e, b, base).value.code)
  }

  /** The machine goes past the expression with its value in the accumulator and its effects on the
      bindings in the registers; the value and the bindings are of the tracked types. */
  ghost predicate Computes(ops: Operators, code: seq<Instr>, e: Expr, b: Bindings, base: nat, floor: nat, env: Env,
      st: State, regs: seq<Value>) {
    && LowerExpr(e, b, base).Some? && ExprBound(e, env.Keys)
    && var l, r := LowerExpr(e, b, base).value, EvalExpr(ops, e, env);
       && Match(l.after, r.env, regs, floor) && Inhabits(r.value, l.ty) && Kept(st.regs, regs, floor, base)
       && Reaches(Machine(ops, code), st, State(st.pc + ExprLen(e), r.value, regs))
  }

  lemma {:induction false} ExprRuns(ops: Operators, code: seq<Instr>, e: Expr, b: Bindings, base: nat, floor: nat,
      env: Env, st: State)
    returns (regs: seq<Value>)
    requires Ready(ops, code, e, b, base, floor, env, st)
    ensures Computes(ops, code, e, b, base, floor, env, st, regs)
    decreases e, 1
  {
    hide Ready, Computes;
    match e
    case Literal(_) =>
      regs := LeafRuns(ops, code, e, b, base, floor, env, st);
    case Name(_) =>
      regs := LeafRuns(ops, code, e, b, base, floor, env, st);
    case Sequence(_, _) =>
      regs := SequenceRuns(ops, code, e, b, base, floor, env, st);
    case Conditional(_, _, _) =>
      regs := ConditionalRuns(ops, code, e, b, base, floor, env, st);
    case BinaryExpr(op, _, _) =>
      if IsLogical(op) {
        regs := LogicalRuns(ops, code, e, b, base, floor, env, st);
      } else {
        regs := BinaryRuns(ops, code, e, b, base, floor, env, st);
      }
    case Assign(_, operator, _) =>
      if operator.None? {
        regs := AssignRuns(ops, code, e, b, base, floor, env, st);
      } else {
        regs := CompoundRuns(ops, code, e, b, base, floor, env, st);
      }
  }

  lemma LeafRuns(ops: Operators, code: seq<Instr>, e: Expr, b: Bindings, base: nat, floor: nat, env: Env, st: State)
    returns (regs: seq<Value>)
    requires Ready(ops, code, e, b, base, floor, env, st) && (e.Literal? || e.Name?)
    ensures Computes(ops, code, e, b, base, floor, env, st, regs)
  {
    hide Lawful, CodeAt, Machine, Reaches, Inhabits;
    regs := st.regs;
    var l, r := LowerExpr(e, b, base).value, EvalExpr(ops, e, env);
    LastOp(code, st.pc, l.code[0]);
    if e.Literal? {
      StepLda(ops, code, st, e.value);
    } else {
      assert Tracks(b[e.name], env[e.name]);
      StepLdar(ops, code, st, b[e.name].register);
    }
    One(ops, code, st, State(st.pc + 1, r.value, regs));
  }

  lemma SequenceRuns(ops: Operators, code: seq<Instr>, e: Expr, b: Bindings, base: nat, floor: nat, env: Env, st: State)
    returns (regs: seq<Value>)
    requires Ready(ops, code, e, b, base, floor, env, st) && e.Sequence?
    ensures Computes(ops, code, e, b, base, floor, env, st, regs)
    decreases e, 0
  {
    hide Lawful, CodeAt, Machine, Reaches, Inhabits, Match, Kept, LowerExpr;
    SequenceLowers(e, b, base);
    var l := LowerExpr(e.left, b, base).value;
    Split(code, st.pc, l.code, LowerExpr(e.right, l.after, base).value.code);
    var between := ExprRuns(ops, code, e.left, b, base, floor, env, st);
    var v := EvalExpr(ops, e.left, env);
    var a := State(st.pc + ExprLen(e.left), v.value, between);
    regs := ExprRuns(ops, code, e.right, l.after, base, floor, v.env, a);
    KeptThen(st.regs, between, regs, floor, base, base);
    Then(Machine(ops, code), st, a, State(st.pc + ExprLen(e), EvalExpr(ops, e, env).value, regs));
  }

  lemma ChoiceStands(code: seq<Instr>, at: nat, condition: seq<Instr>, yes: seq<Instr>, no: seq<Instr>)
    requires CodeAt(code, at, ChoiceCode(condition, yes, no))
    ensures CodeAt(code, at, condition)
    ensures IsOp(code, at + |condition|, JumpIfFalse(|yes| + 1))
    ensures CodeAt(code, at + |condition| + 1, yes)
    ensures IsOp(code, at + |condition| + 1 + |yes|, Jump(|no|))
    ensures CodeAt(code, at + |condition| + 1 + |yes| + 1, no)
  {
    hide CodeAt, IsOp;
    var branch, jump := JumpIfFalse(|yes| + 1), Jump(|no|);
    Split(code, at, condition, [branch] + (yes + ([jump] + no)));
    FirstOp(code, at + |condition|, branch, yes + ([jump] + no));
    Split(code, at + |condition| + 1, yes, [jump] + no);
    FirstOp(code, at + |condition| + 1 + |yes|, jump, no);
  }

  lemma ConditionalRuns(ops: Operators, code: seq<Instr>, e: Expr, b: Bindings, base: nat, floor: nat, env: Env,
      st: State)
    returns (regs: seq<Value>)
    requires Ready(ops, code, e, b, base, floor, env, st) && e.Conditional?
    ensures Computes(ops, code, e, b, base, floor, env, st, regs)
    decreases e, 0
  {
    hide Lawful, CodeAt, Machine, Reaches, Inhabits, Match, Kept, ChoiceCode, Merge, LowerExpr;
    ConditionalLowers(e, b, base);
    var m := Machine(ops, code);
    var l := LowerExpr(e.condition, b, base).value;
    var y, n := LowerExpr(e.yes, l.after, base).value, LowerExpr(e.no, l.after, base).value;
    ChoiceStands(code, st.pc, l.code, y.code, n.code);
    var start := st.pc + ExprLen(e.condition) + 1;
    var other, end := start + ExprLen(e.yes) + 1, st.pc + ExprLen(e);
    var between := ExprRuns(ops, code, e.condition, b, base, floor, env, st);
    var c := EvalExpr(ops, e.condition, env);
    var a := State(start - 1, c.value, between);
    Sized(l.after, c.env, between, floor);
    LoweredBinds(e, b, base);
    Sized(b, env, st.regs, floor);
    StepIfFalse(ops, code, a, other);
    if ops.truthy(c.value) {
      var d := a.(pc := start);
      regs := ExprRuns(ops, code, e.yes, l.after, base, floor, c.env, d);
      var v := EvalExpr(ops, e.yes, c.env);
      InMerge(v.value, y.ty, n.ty);
      Sized(y.after, v.env, regs, floor);
      var f := State(other - 1, v.value, regs);
      StepJump(ops, code, f, end);
      One(ops, code, f, f.(pc := end));
      Then(m, d, f, f.(pc := end));
      First(m, a, d, f.(pc := end));
      Then(m, st, a, f.(pc := end));
    } else {
      var d := a.(pc := other);
      regs := ExprRuns(ops, code, e.no, l.after, base, floor, c.env, d);
      var v := EvalExpr(ops, e.no, c.env);
      InMerge(v.value, y.ty, n.ty);
      First(m, a, d, State(end, v.value, regs));
      Then(m, st, a, State(end, v.value, regs));
    }
    KeptThen(st.regs, between, regs, floor, base, base);
  }

  lemma Sized(b: Bindings, env: Env, regs: seq<Value>, floor: nat)
    requires Match(b, env, regs, floor)
    ensures |regs| == REGISTERS && env.Keys == b.Keys && floor <= REGISTERS
  {
  }

  lemma LogicalStands(code: seq<Instr>, op: Binary, at: nat, left: seq<Instr>, right: seq<Instr>)
    requires CodeAt(code, at, LogicalCode(op, left, right))
    ensures CodeAt(code, at, left) && IsOp(code, at + |left|, ShortCircuit(op, |right|))
    ensures CodeAt(code, at + |left| + 1, right)
  {
    hide CodeAt, IsOp, ShortCircuit;
    Split(code, at, left, [ShortCircuit(op, |right|)] + right);
    FirstOp(code, at + |left|, ShortCircuit(op, |right|), right);
  }

  lemma StepShort(ops: Operators, code: seq<Instr>, st: State, op: Binary, n: nat)
    requires IsOp(code, st.pc, ShortCircuit(op, n)) && |st.regs| == REGISTERS && IsLogical(op)
    ensures Machine(ops, code)(st) == Some(st.(pc := if TakesRight(ops, op, st.acc) then st.pc + 1 else st.pc + 1 + n))
  {
  }

  lemma LogicalRuns(ops: Operators, code: seq<Instr>, e: Expr, b: Bindings, base: nat, floor: nat, env: Env, st: State)
    returns (regs: seq<Value>)
    requires Ready(ops, code, e, b, base, floor, env, st) && e.BinaryExpr? && IsLogical(e.op)
    ensures Computes(ops, code, e, b, base, floor, env, st, regs)
    decreases e, 0
  {
    hide Lawful, CodeAt, Machine, Reaches, Inhabits, Match, Kept, LogicalCode, Merge, MergeBindings, ShortCircuit,
        LowerExpr;
    LogicalLowers(e, b, base);
    var m := Machine(ops, code);
    var l := LowerExpr(e.left, b, base).value;
    var r := LowerExpr(e.right, l.after, base).value;
    LogicalStands(code, e.op, st.pc, l.code, r.code);
    var middle, end := st.pc + ExprLen(e.left), st.pc + ExprLen(e);
    var between := ExprRuns(ops, code, e.left, b, base, floor, env, st);
    var v := EvalExpr(ops, e.left, env);
    var a := State(middle, v.value, between);
    Sized(l.after, v.env, between, floor);
    LoweredBinds(e, b, base);
    Sized(b, env, st.regs, floor);
    StepShort(ops, code, a, e.op, ExprLen(e.right));
    if TakesRight(ops, e.op, v.value) {
      var d := a.(pc := middle + 1);
      regs := ExprRuns(ops, code, e.right, l.after, base, floor, v.env, d);
      var w := EvalExpr(ops, e.right, v.env);
      InMerge(w.value, l.ty, r.ty);
      MatchMerge(l.after, r.after, w.env, regs, floor);
      First(m, a, d, State(end, w.value, regs));
      Then(m, st, a, State(end, w.value, regs));
      KeptThen(st.regs, between, regs, floor, base, base);
    } else {
      regs := between;
      InMerge(v.value, l.ty, r.ty);
      MatchMerge(l.after, r.after, v.env, regs, floor);
      One(ops, code, a, a.(pc := end));
      Then(m, st, a, a.(pc := end));
    }
  }

  lemma AssignRuns(ops: Operators, code: seq<Instr>, e: Expr, b: Bindings, base: nat, floor: nat, env: Env, st: State)
    returns (regs: seq<Value>)
    requires Ready(ops, code, e, b, base, floor, env, st) && e.Assign? && e.operator.None?
    ensures Computes(ops, code, e, b, base, floor, env, st, regs)
    decreases e, 0
  {
    hide Lawful, CodeAt, Machine, Reaches, Inhabits, Match, Kept, Retype, LowerExpr;
    AssignLowers(e, b, base);
    var m, register := Machine(ops, code), b[e.name].register;
    var l := LowerExpr(e.right, b, base).value;
    Split(code, st.pc, l.code, [Star(register)]);
    LastOp(code, st.pc + ExprLen(e.right), Star(register));
    var between := ExprRuns(ops, code, e.right, b, base, floor, env, st);
    var v := EvalExpr(ops, e.right, env);
    var a := State(st.pc + ExprLen(e.right), v.value, between);
    LoweredBinds(e.right, b, base);
    Sized(b, env, st.regs, floor);
    Sized(l.after, v.env, between, floor);
    assert Alike(b[e.name], l.after[e.name]);
    MatchStore(l.after, v.env, between, floor, e.name, v.value, l.ty);
    regs := between[register := v.value];
    StepStar(ops, code, a, register);
    KeptStore(st.regs, between, floor, base, register, v.value);
    One(ops, code, a, State(st.pc + ExprLen(e), v.value, regs));
    Then(m, st, a, State(st.pc + ExprLen(e), v.value, regs));
  }

  // ---------- binary operators ----------

  lemma SelectedType(ops: Operators, op: Binary, lt: RegType, rt: RegType, l: nat, r: nat, x: Value, y: Value)
    requires Lawful(ops) && Inhabits(x, lt) && Inhabits(y, rt) && Select(op, lt, rt, l, r).Some?
    ensures Inhabits(ops.apply(op, x, y), Select(op, lt, rt, l, r).value.ty)
  {
  }

  /** The instructions an operator becomes answer what the operator answers, of the type tracked. */
  lemma {:induction false} SelectedRuns(ops: Operators, code: seq<Instr>, op: Binary, lt: RegType, rt: RegType,
      l: nat, r: nat, st: State)
    requires Lawful(ops) && |st.regs| == REGISTERS && l < REGISTERS && r < REGISTERS && st.acc == st.regs[l]
    requires Inhabits(st.regs[l], lt) && Inhabits(st.regs[r], rt)
    requires Select(op, lt, rt, l, r).Some? && CodeAt(code, st.pc, Select(op, lt, rt, l, r).value.code)
    ensures var value := ops.apply(op, st.regs[l], st.regs[r]);
      Inhabits(value, Select(op, lt, rt, l, r).value.ty) &&
      Reaches(Machine(ops, code), st, st.(pc := st.pc + SelectedLen(op), acc := value))
  {
    hide CodeAt, Reaches, Inhabits, Machine;
    SelectedType(ops, op, lt, rt, l, r, st.regs[l], st.regs[r]);
    var s := Select(op, lt, rt, l, r).value;
    var value := ops.apply(op, st.regs[l], st.regs[r]);
    var last := st.(pc := st.pc + SelectedLen(op), acc := value);
    if op.Ne? || op.StrictNe? {
      assert s.code == [s.code[0]] + [LogicalNot];
      FirstOp(code, st.pc, s.code[0], [LogicalNot]);
      LastOp(code, st.pc + 1, LogicalNot);
      var a := st.(pc := st.pc + 1, acc := ops.apply(if op.Ne? then Eq else StrictEq, st.regs[l], st.regs[r]));
      SelectedSteps(ops, code, op, lt, rt, l, r, st);
      NotSteps(ops, code, a);
      One(ops, code, a, last);
      First(Machine(ops, code), st, a, last);
    } else {
      LastOp(code, st.pc, s.code[0]);
      SelectedSteps(ops, code, op, lt, rt, l, r, st);
      One(ops, code, st, last);
    }
  }

  /** The first instruction selected applies the operator, or for an inequality the equality. */
  lemma {:induction false} SelectedSteps(ops: Operators, code: seq<Instr>, op: Binary, lt: RegType, rt: RegType,
      l: nat, r: nat, st: State)
    requires |st.regs| == REGISTERS && l < REGISTERS && r < REGISTERS && st.acc == st.regs[l]
    requires Inhabits(st.regs[l], lt) && Inhabits(st.regs[r], rt)
    requires Select(op, lt, rt, l, r).Some? && IsOp(code, st.pc, Select(op, lt, rt, l, r).value.code[0])
    ensures var op' := if op.Ne? then Eq else if op.StrictNe? then StrictEq else op;
      Machine(ops, code)(st) == Some(st.(pc := st.pc + 1, acc := ops.apply(op', st.regs[l], st.regs[r])))
  {
  }

  lemma NotSteps(ops: Operators, code: seq<Instr>, st: State)
    requires |st.regs| == REGISTERS && IsOp(code, st.pc, LogicalNot)
    ensures Machine(ops, code)(st) == Some(st.(pc := st.pc + 1, acc := Boolean(!ops.truthy(st.acc))))
  {
  }

  lemma CompoundSelectedRuns(ops: Operators, code: seq<Instr>, op: Binary, lt: RegType, rt: RegType, l: nat, r: nat,
      st: State)
    requires Lawful(ops) && |st.regs| == REGISTERS && l < REGISTERS && r < REGISTERS && st.acc == st.regs[l]
    requires Inhabits(st.regs[l], lt) && Inhabits(st.regs[r], rt)
    requires SelectCompound(op, lt, rt, l, r).Some? && CodeAt(code, st.pc, SelectCompound(op, lt, rt, l, r).value.code)
    ensures var value := ops.apply(op, st.regs[l], st.regs[r]);
      Inhabits(value, SelectCompound(op, lt, rt, l, r).value.ty) &&
      Reaches(Machine(ops, code), st, st.(pc := st.pc + 1, acc := value))
  {
    hide CodeAt, Reaches;
    LastOp(code, st.pc, SelectCompound(op, lt, rt, l, r).value.code[0]);
    One(ops, code, st, st.(pc := st.pc + 1, acc := ops.apply(op, st.regs[l], st.regs[r])));
  }

  lemma BinaryStands(code: seq<Instr>, at: nat, base: nat, left: seq<Instr>, right: seq<Instr>, last: seq<Instr>)
    requires CodeAt(code, at, BinaryCode(base, left, right, last))
    ensures var l := at + |left|;
      var r := l + 1 + |right|;
      CodeAt(code, at, left) && IsOp(code, l, Star(base)) && CodeAt(code, l + 1, right)
      && IsOp(code, r, Star(base + 1)) && IsOp(code, r + 1, Ldar(base)) && CodeAt(code, r + 2, last)
  {
    hide CodeAt, IsOp;
    var l := at + |left|;
    var r := l + 1 + |right|;
    Split(code, at, left, [Star(base)] + (right + ([Star(base + 1)] + ([Ldar(base)] + last))));
    FirstOp(code, l, Star(base), right + ([Star(base + 1)] + ([Ldar(base)] + last)));
    Split(code, l + 1, right, [Star(base + 1)] + ([Ldar(base)] + last));
    FirstOp(code, r, Star(base + 1), [Ldar(base)] + last);
    FirstOp(code, r + 1, Ldar(base), last);
  }

  /** From the left operand in the accumulator to both operands in registers. */
  lemma OperandsRun(ops: Operators, code: seq<Instr>, e: Expr, b: Bindings, base: nat, floor: nat, env: Env, st: State)
    returns (regs: seq<Value>)
    requires Lawful(ops) && floor <= base && base + 2 <= LAST_REGISTER && Match(b, env, st.regs, floor)
    requires LowerExpr(e, b, base + 1).Some? && IsOp(code, st.pc, Star(base))
    requires CodeAt(code, st.pc + 1, LowerExpr(e, b, base + 1).value.code)
    requires IsOp(code, st.pc + 1 + ExprLen(e), Star(base + 1)) && IsOp(code, st.pc + 2 + ExprLen(e), Ldar(base))
    ensures ExprBound(e, env.Keys)
    ensures var l, r := LowerExpr(e, b, base + 1).value, EvalExpr(ops, e, env);
      && Match(l.after, r.env, regs, floor) && Kept(st.regs, regs, floor, base)
      && |regs| == REGISTERS && regs[base] == st.acc && regs[base + 1] == r.value && Inhabits(r.value, l.ty)
      && Reaches(Machine(ops, code), st, State(st.pc + 3 + ExprLen(e), st.acc, regs))
    decreases e, 2
  {
    hide Lawful, CodeAt, Machine, Reaches, Inhabits, Match, IsOp, ExprLen, LowerExpr, EvalExpr;
    var m := Machine(ops, code);
    Sized(b, env, st.regs, floor);
    StepStar(ops, code, st, base);
    var a := st.(pc := st.pc + 1, regs := st.regs[base := st.acc]);
    MatchTemp(b, env, st.regs, floor, base, st.acc);
    KeptTemp(st.regs, st.regs, floor, base, base, st.acc);
    var between := ExprRuns(ops, code, e, b, base + 1, floor, env, a);
    var l, r := LowerExpr(e, b, base + 1).value, EvalExpr(ops, e, env);
    Sized(l.after, r.env, between, floor);
    KeptThen(st.regs, a.regs, between, floor, base, base + 1);
    var c := State(st.pc + 1 + ExprLen(e), r.value, between);
    StepStar(ops, code, c, base + 1);
    regs := between[base + 1 := r.value];
    MatchTemp(l.after, r.env, between, floor, base + 1, r.value);
    KeptTemp(st.regs, between, floor, base, base + 1, r.value);
    var d := c.(pc := c.pc + 1, regs := regs);
    StepLdar(ops, code, d, base);
    assert regs[base] == st.acc;
    var f := State(st.pc + 3 + ExprLen(e), st.acc, regs);
    One(ops, code, d, f);
    First(m, c, d, f);
    Then(m, a, c, f);
    First(m, st, a, f);
  }

  lemma BinaryRuns(ops: Operators, code: seq<Instr>, e: Expr, b: Bindings, base: nat, floor: nat, env: Env, st: State)
    returns (regs: seq<Value>)
    requires Ready(ops, code, e, b, base, floor, env, st) && e.BinaryExpr? && !IsLogical(e.op)
    ensures Computes(ops, code, e, b, base, floor, env, st, regs)
    decreases e, 0
  {
    hide Lawful, CodeAt, Machine, Reaches, Inhabits, Match, Kept, BinaryCode, Select, IsOp, LowerExpr;
    BinaryLowers(e, b, base);
    var m := Machine(ops, code);
    var l := LowerExpr(e.left, b, base).value;
    var r := LowerExpr(e.right, l.after, base + 1).value;
    var last := Select(e.op, l.ty, r.ty, base, base + 1).value;
    BinaryStands(code, st.pc, base, l.code, r.code, last.code);
    var between := ExprRuns(ops, code, e.left, b, base, floor, env, st);
    var v := EvalExpr(ops, e.left, env);
    var a := State(st.pc + ExprLen(e.left), v.value, between);
    regs := OperandsRun(ops, code, e.right, l.after, base, floor, v.env, a);
    var w := EvalExpr(ops, e.right, v.env);
    var c := State(a.pc + 3 + ExprLen(e.right), v.value, regs);
    SelectedRuns(ops, code, e.op, l.ty, r.ty, base, base + 1, c);
    var d := State(st.pc + ExprLen(e), ops.apply(e.op, v.value, w.value), regs);
    Then(m, a, c, d);
    Then(m, st, a, d);
    KeptThen(st.regs, between, regs, floor, base, base);
  }

  lemma CompoundRuns(ops: Operators, code: seq<Instr>, e: Expr, b: Bindings, base: nat, floor: nat, env: Env, st: State)
    returns (regs: seq<Value>)
    requires Ready(ops, code, e, b, base, floor, env, st) && e.Assign? && e.operator.Some?
    ensures Computes(ops, code, e, b, base, floor, env, st, regs)
    decreases e, 0
  {
    hide Lawful, CodeAt, Machine, Reaches, Inhabits, Match, Kept, BinaryCode, SelectCompound, IsOp, Retype, LowerExpr;
    CompoundLowers(e, b, base);
    var m, op, register := Machine(ops, code), e.operator.value, b[e.name].register;
    var r, lt := LowerExpr(e.right, b, base + 1).value, b[e.name].ty.value;
    var last := SelectCompound(op, lt, r.ty, base, base + 1).value;
    Split(code, st.pc, BinaryCode(base, [Ldar(register)], r.code, last.code), [Star(register)]);
    BinaryStands(code, st.pc, base, [Ldar(register)], r.code, last.code);
    LastOp(code, st.pc, Ldar(register));
    LastOp(code, st.pc + ExprLen(e) - 1, Star(register));
    BindingRead(b, env, st.regs, floor, e.name);
    StepLdar(ops, code, st, register);
    var a := State(st.pc + 1, env[e.name], st.regs);
    var between := OperandsRun(ops, code, e.right, b, base, floor, env, a);
    var w := EvalExpr(ops, e.right, env);
    var c := State(a.pc + 3 + ExprLen(e.right), env[e.name], between);
    CompoundSelectedRuns(ops, code, op, lt, r.ty, base, base + 1, c);
    var value := ops.apply(op, env[e.name], w.value);
    var d := State(st.pc + ExprLen(e) - 1, value, between);
    LoweredBinds(e.right, b, base + 1);
    assert Alike(b[e.name], r.after[e.name]);
    MatchStore(r.after, w.env, between, floor, e.name, value, last.ty);
    regs := between[register := value];
    StepStar(ops, code, d, register);
    KeptStore(st.regs, between, floor, base, register, value);
    var f := State(st.pc + ExprLen(e), value, regs);
    One(ops, code, d, f);
    Then(m, c, d, f);
    Then(m, a, c, f);
    First(m, st, a, f);
  }

  lemma BindingRead(b: Bindings, env: Env, regs: seq<Value>, floor: nat, name: string)
    requires Match(b, env, regs, floor) && name in b
    ensures |regs| == REGISTERS && b[name].register < floor <= REGISTERS
    ensures name in env && regs[b[name].register] == env[name]
    ensures b[name].ty.Some? && Inhabits(env[name], b[name].ty.value)
  {
    assert Tracks(b[name], env[name]);
  }
}
