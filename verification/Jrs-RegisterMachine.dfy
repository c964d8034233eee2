/** The register machine. */
module RegisterMachine {
  import opened Wrappers
  import opened Source
  import opened CodeLayout

  /** Registers are named by 16 bits. */
  const REGISTERS: nat := 0x1_0000

  datatype Instr =
    | Lda(value: Value)
    | Ldar(register: nat)
    | Star(register: nat)
    | Typed(op: Binary, register: nat)
    | Generic(op: Binary, left: nat, right: nat)
    | Bitwise(op: Binary, register: nat)
    | TestEqual(register: nat)
    | TestStrictEqual(register: nat)
    | LogicalNot
    | Jump(offset: int)
    | JumpIfFalse(offset: int)
    | JumpIfTrue(offset: int)
    | JumpIfNotNullish(offset: int)
    | Return

  datatype State = State(pc: nat, acc: Value, regs: seq<Value>)

  predicate NumericValue(v: Value) {
    v.Number? || v.Undefined?
  }

  /** What a typed instruction takes: numbers, undefined, and for `+` two strings. */
  predicate TypedAccepts(op: Binary, l: Value, r: Value) {
    (NumericValue(l) && NumericValue(r)) || (op.Add? && l.String? && r.String?)
  }

  /** A jump is relative to the instruction after it. */
  function Goto(st: State, offset: int): (r: Option<State>) {
    if st.pc + 1 + offset >= 0 then Some(st.(pc := st.pc + 1 + offset)) else None
  }

  function Accumulate(st: State, value: Value): (r: Option<State>) {
    Some(st.(pc := st.pc + 1, acc := value))
  }

  /** One step. There is none past the code or after a return; a typed instruction takes none on
      operands it does not accept. */
  function Step(ops: Operators, code: seq<Instr>, st: State): (r: Option<State>) {
    if st.pc >= |code| || |st.regs| != REGISTERS then None
    else
      match code[st.pc]
      case Lda(value) => Accumulate(st, value)
      case Ldar(r) => if r < REGISTERS then Accumulate(st, st.regs[r]) else None
      case Star(r) => if r < REGISTERS then Some(st.(pc := st.pc + 1, regs := st.regs[r := st.acc])) else None
      case Typed(op, r) =>
        if r < REGISTERS && TypedAccepts(op, st.acc, st.regs[r])
        then Accumulate(st, ops.apply(op, st.acc, st.regs[r])) else None
      case Generic(op, l, r) =>
        if l < REGISTERS && r < REGISTERS then Accumulate(st, ops.apply(op, st.regs[l], st.regs[r])) else None
      case Bitwise(op, r) => if r < REGISTERS then Accumulate(st, ops.apply(op, st.acc, st.regs[r])) else None
      case TestEqual(r) => if r < REGISTERS then Accumulate(st, ops.apply(Eq, st.acc, st.regs[r])) else None
      case TestStrictEqual(r) =>
        if r < REGISTERS then Accumulate(st, ops.apply(StrictEq, st.acc, st.regs[r])) else None
      case LogicalNot => Accumulate(st, Boolean(!ops.truthy(st.acc)))
      case Jump(offset) => Goto(st, offset)
      case JumpIfFalse(offset) => Goto(st, if ops.truthy(st.acc) then 0 else offset)
      case JumpIfTrue(offset) => Goto(st, if ops.truthy(st.acc) then offset else 0)
      case JumpIfNotNullish(offset) => Goto(st, if st.acc.Undefined? || st.acc.Null? then 0 else offset)
      case Return => None
  }

  function Machine(ops: Operators, code: seq<Instr>): (m: State -> Option<State>) {
    st => Step(ops, code, st)
  }

  // ---------- what operators answer ----------

  predicate IsArithmetic(op: Binary) {
    op.Sub? || op.Mul? || op.Pow? || op.Div? || op.Rem?
  }

  predicate IsComparison(op: Binary) {
    op.Lt? || op.Le? || op.Gt? || op.Ge?
  }

  predicate IsBitwise(op: Binary) {
    op.BitAnd? || op.BitOr? || op.BitXor? || op.Shl? || op.Shr? || op.Ushr?
  }

  /** The laws of the operators the lowering counts on: what kind of value they answer, and that
      inequality is the opposite of equality. */
  ghost predicate Lawful(ops: Operators) {
    && (forall op, l, r | IsArithmetic(op) || IsBitwise(op) :: ops.apply(op, l, r).Number?)
    && (forall op, l, r | IsComparison(op) || op.Eq? || op.StrictEq? :: ops.apply(op, l, r).Boolean?)
    && (forall l, r | NumericValue(l) && NumericValue(r) :: ops.apply(Add, l, r).Number?)
    && (forall l: Value, r: Value | l.String? && r.String? :: ops.apply(Add, l, r).String?)
    && (forall l, r :: ops.apply(Ne, l, r) == Boolean(!ops.truthy(ops.apply(Eq, l, r))))
    && (forall l, r :: ops.apply(StrictNe, l, r) == Boolean(!ops.truthy(ops.apply(StrictEq, l, r))))
  }

  // ---------- steps ----------

  lemma StepLda(ops: Operators, code: seq<Instr>, st: State, value: Value)
    requires IsOp(code, st.pc, Lda(value)) && |st.regs| == REGISTERS
    ensures Machine(ops, code)(st) == Some(st.(pc := st.pc + 1, acc := value))
  {
  }

  lemma StepLdar(ops: Operators, code: seq<Instr>, st: State, r: nat)
    requires IsOp(code, st.pc, Ldar(r)) && |st.regs| == REGISTERS && r < REGISTERS
    ensures Machine(ops, code)(st) == Some(st.(pc := st.pc + 1, acc := st.regs[r]))
  {
  }

  lemma StepStar(ops: Operators, code: seq<Instr>, st: State, r: nat)
    requires IsOp(code, st.pc, Star(r)) && |st.regs| == REGISTERS && r < REGISTERS
    ensures Machine(ops, code)(st) == Some(st.(pc := st.pc + 1, regs := st.regs[r := st.acc]))
  {
  }

  lemma StepJump(ops: Operators, code: seq<Instr>, st: State, target: nat)
    requires IsOp(code, st.pc, Jump(target - (st.pc + 1))) && |st.regs| == REGISTERS
    ensures Machine(ops, code)(st) == Some(st.(pc := target))
  {
  }

  lemma StepIfFalse(ops: Operators, code: seq<Instr>, st: State, target: nat)
    requires IsOp(code, st.pc, JumpIfFalse(target - (st.pc + 1))) && |st.regs| == REGISTERS
    ensures Machine(ops, code)(st) == Some(st.(pc := if ops.truthy(st.acc) then st.pc + 1 else target))
  {
  }

  lemma StepIfTrue(ops: Operators, code: seq<Instr>, st: State, target: nat)
    requires IsOp(code, st.pc, JumpIfTrue(target - (st.pc + 1))) && |st.regs| == REGISTERS
    ensures Machine(ops, code)(st) == Some(st.(pc := if ops.truthy(st.acc) then target else st.pc + 1))
  {
  }
}
