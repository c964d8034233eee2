/** The stack backend: its code, its machine, and that the one runs on the other as the source means. */
module StackBackend {
  import opened Wrappers
  import opened Source
  import opened Machines
  import opened CodeLayout

  /** When a branch is taken. */
  datatype Test = False | True | NotNullish

  datatype Op =
    | Constant(value: Value)
    | Load(slot: nat)
    | Store(slot: nat)
    | Apply(op: Binary)
    | Dup
    | Pop
    | Result
    | Jump(target: nat)
    | Branch(target: nat, test: Test)
    | AbruptJump(target: nat)

  type Scope = map<string, nat>

  datatype State = State(pc: nat, stack: seq<Value>, slots: seq<Option<Value>>, result: Value)

  predicate Taken(ops: Operators, test: Test, value: Value) {
    match test
    case False => !ops.truthy(value)
    case True => ops.truthy(value)
    case NotNullish => !value.Undefined? && !value.Null?
  }

  /** One step. There is none past the code, from too few operands, or with a binding that is not
      there or not initialized yet. */
  function Step(ops: Operators, code: seq<Op>, st: State): (r: Option<State>) {
    if st.pc >= |code| then None
    else
      var n, pc := |st.stack|, st.pc + 1;
      match code[st.pc]
      case Constant(value) => Some(st.(pc := pc, stack := st.stack + [value]))
      case Load(slot) =>
        if slot < |st.slots| && st.slots[slot].Some?
        then Some(st.(pc := pc, stack := st.stack + [st.slots[slot].value])) else None
      case Store(slot) =>
        if slot < |st.slots| && st.slots[slot].Some? && n >= 1
        then Some(st.(pc := pc, slots := st.slots[slot := Some(st.stack[n - 1])])) else None
      case Apply(op) =>
        if n >= 2 then Some(st.(pc := pc, stack := st.stack[..n - 2]
            + [ops.apply(op, st.stack[n - 2], st.stack[n - 1])]))
        else None
      case Dup => if n >= 1 then Some(st.(pc := pc, stack := st.stack + [st.stack[n - 1]])) else None
      case Pop => if n >= 1 then Some(st.(pc := pc, stack := st.stack[..n - 1])) else None
      case Result =>
        if n >= 1 then Some(st.(pc := pc, stack := st.stack[..n - 1], result := st.stack[n - 1])) else None
      case Jump(target) => Some(st.(pc := target))
      case AbruptJump(target) => Some(st.(pc := target))
      case Branch(target, test) =>
        if n >= 1 then
          Some(st.(pc := if Taken(ops, test, st.stack[n - 1]) then target else pc, stack := st.stack[..n - 1]))
        else None
  }

  function Machine(ops: Operators, code: seq<Op>): (m: State -> Option<State>) {
    st => Step(ops, code, st)
  }

  // ---------- code of expressions ----------

  function TestOf(op: Binary): (t: Test) {
    match op
    case And => False
    case Or => True
    case _ => NotNullish
  }

  function ExprLen(e: Expr): (n: nat) {
    match e
    case Literal(_) => 1
    case Name(_) => 1
    case Assign(_, operator, right) => (if operator.Some? then 2 else 0) + ExprLen(right) + 1
    case BinaryExpr(op, left, right) => ExprLen(left) + (if IsLogical(op) then 3 else 1) + ExprLen(right)
    case Conditional(condition, yes, no) => ExprLen(condition) + 1 + ExprLen(yes) + 1 + ExprLen(no)
    case Sequence(left, right) => ExprLen(left) + 1 + ExprLen(right)
  }

  function LogicalCode(op: Binary, at: nat, left: seq<Op>, right: seq<Op>): (code: seq<Op>)
    ensures |code| == |left| + 3 + |right|
  {
    left + ([Dup] + ([Branch(at + |left| + 3 + |right|, TestOf(op))] + ([Pop] + right)))
  }

  function ChoiceCode(at: nat, condition: seq<Op>, yes: seq<Op>, no: seq<Op>): (code: seq<Op>)
    ensures |code| == |condition| + 1 + |yes| + 1 + |no|
  {
    var other := at + |condition| + 1 + |yes| + 1;
    condition + ([Branch(other, False)] + (yes + ([Jump(other + |no|)] + no)))
  }

  function CompoundCode(slot: nat, op: Binary, right: seq<Op>): (code: seq<Op>)
    ensures |code| == |right| + 3
  {
    [Load(slot)] + (right + ([Apply(op)] + [Store(slot)]))
  }

  /** The code of an expression that starts at `at`: it pushes the value. */
  function ExprCode(e: Expr, at: nat, scope: Scope): (code: seq<Op>)
    requires ExprBound(e, scope.Keys)
    ensures |code| == ExprLen(e)
  {
    hide LogicalCode, ChoiceCode, CompoundCode;
    match e
    case Literal(value) => [Constant(value)]
    case Name(name) => [Load(scope[name])]
    case Assign(name, operator, right) =>
      if operator.None? then ExprCode(right, at, scope) + [Store(scope[name])]
      else CompoundCode(scope[name], operator.value, ExprCode(right, at + 1, scope))
    case BinaryExpr(op, left, right) =>
      var l := at + ExprLen(left);
      if IsLogical(op) then LogicalCode(op, at, ExprCode(left, at, scope), ExprCode(right, l + 3, scope))
      else ExprCode(left, at, scope) + (ExprCode(right, l, scope) + [Apply(op)])
    case Conditional(condition, yes, no) =>
      var start := at + ExprLen(condition) + 1;
      var other := start + ExprLen(yes) + 1;
      ChoiceCode(at, ExprCode(condition, at, scope), ExprCode(yes, start, scope), ExprCode(no, other, scope))
    case Sequence(left, right) =>
      ExprCode(left, at, scope) + ([Pop] + ExprCode(right, at + ExprLen(left) + 1, scope))
  }

  /** The code of an expression, one level deep. */
  lemma {:induction false} ExprShape(e: Expr, at: nat, scope: Scope)
    requires ExprBound(e, scope.Keys)
    ensures e.Sequence? ==>
              ExprCode(e, at, scope) == ExprCode(e.left, at, scope)
                  + ([Pop] + ExprCode(e.right, at + ExprLen(e.left) + 1, scope))
    ensures e.BinaryExpr? ==>
              var l := at + ExprLen(e.left);
              ExprCode(e, at, scope)
              == if IsLogical(e.op) then LogicalCode(e.op, at, ExprCode(e.left, at, scope),
                  ExprCode(e.right, l + 3, scope))
                 else ExprCode(e.left, at, scope) + (ExprCode(e.right, l, scope) + [Apply(e.op)])
    ensures e.Conditional? ==>
              var start := at + ExprLen(e.condition) + 1;
              var other := start + ExprLen(e.yes) + 1;
              ExprCode(e, at, scope)
              == ChoiceCode(at, ExprCode(e.condition, at, scope), ExprCode(e.yes, start, scope),
                  ExprCode(e.no, other, scope))
  {
    hide LogicalCode, ChoiceCode, CompoundCode;
  }

  // ---------- steps ----------

  lemma StepConstant(ops: Operators, code: seq<Op>, st: State, value: Value)
    requires IsOp(code, st.pc, Constant(value))
    ensures Machine(ops, code)(st) == Some(st.(pc := st.pc + 1, stack := st.stack + [value]))
  {
  }

  lemma StepLoad(ops: Operators, code: seq<Op>, st: State, slot: nat)
    requires IsOp(code, st.pc, Load(slot)) && slot < |st.slots| && st.slots[slot].Some?
    ensures Machine(ops, code)(st) == Some(st.(pc := st.pc + 1, stack := st.stack + [st.slots[slot].value]))
  {
  }

  lemma StepStore(ops: Operators, code: seq<Op>, st: State, slot: nat, under: seq<Value>, value: Value)
    requires IsOp(code, st.pc, Store(slot)) && slot < |st.slots| && st.slots[slot].Some? && st.stack == under + [value]
    ensures Machine(ops, code)(st) == Some(st.(pc := st.pc + 1, slots := st.slots[slot := Some(value)]))
  {
  }

  lemma StepApply(ops: Operators, code: seq<Op>, st: State, op: Binary, under: seq<Value>, l: Value, r: Value)
    requires IsOp(code, st.pc, Apply(op)) && st.stack == under + [l] + [r]
    ensures Machine(ops, code)(st) == Some(st.(pc := st.pc + 1, stack := under + [ops.apply(op, l, r)]))
  {
    assert st.stack[..|st.stack| - 2] == under;
  }

  lemma StepDup(ops: Operators, code: seq<Op>, st: State, under: seq<Value>, value: Value)
    requires IsOp(code, st.pc, Dup) && st.stack == under + [value]
    ensures Machine(ops, code)(st) == Some(st.(pc := st.pc + 1, stack := under + [value] + [value]))
  {
  }

  lemma StepPop(ops: Operators, code: seq<Op>, st: State, under: seq<Value>, value: Value)
    requires IsOp(code, st.pc, Pop) && st.stack == under + [value]
    ensures Machine(ops, code)(st) == Some(st.(pc := st.pc + 1, stack := under))
  {
    assert st.stack[..|st.stack| - 1] == under;
  }

  lemma StepResult(ops: Operators, code: seq<Op>, st: State, under: seq<Value>, value: Value)
    requires IsOp(code, st.pc, Result) && st.stack == under + [value]
    ensures Machine(ops, code)(st) == Some(st.(pc := st.pc + 1, stack := under, result := value))
  {
    assert st.stack[..|st.stack| - 1] == under;
  }

  lemma StepBranch(ops: Operators, code: seq<Op>, st: State, target: nat, test: Test, under: seq<Value>, value: Value)
    requires IsOp(code, st.pc, Branch(target, test)) && st.stack == under + [value]
    ensures Machine(ops, code)(st)
      == Some(st.(pc := if Taken(ops, test, value) then target else st.pc + 1, stack := under))
  {
    assert st.stack[..|st.stack| - 1] == under;
  }

  lemma StepJump(ops: Operators, code: seq<Op>, st: State, target: nat)
    requires IsOp(code, st.pc, Jump(target)) || IsOp(code, st.pc, AbruptJump(target))
    ensures Machine(ops, code)(st) == Some(st.(pc := target))
  {
  }

  // ---------- bindings ----------

  /** Every name has a slot of its own. */
  ghost predicate Distinct(scope: Scope) {
    forall x, y | x in scope && y in scope && x != y :: scope[x] != scope[y]
  }

  /** The slots hold the bindings. */
  ghost predicate Holds(scope: Scope, env: Env, slots: seq<Option<Value>>) {
    && env.Keys == scope.Keys && Distinct(scope)
    && forall x | x in scope :: scope[x] < |slots| && slots[scope[x]] == Some(env[x])
  }

  lemma Stored(scope: Scope, env: Env, slots: seq<Option<Value>>, name: string, value: Value)
    requires Holds(scope, env, slots) && name in scope
    ensures scope[name] < |slots| && slots[scope[name]].Some?
    ensures Holds(scope, env[name := value], slots[scope[name] := Some(value)])
  {
  }

  lemma Loaded(scope: Scope, env: Env, slots: seq<Option<Value>>, name: string)
    requires Holds(scope, env, slots) && name in scope
    ensures scope[name] < |slots| && name in env && slots[scope[name]] == Some(env[name])
  {
  }

  // ---------- running expressions ----------

  /** The expression stands where the machine is, and the machine holds its bindings. */
  ghost predicate Ready(code: seq<Op>, e: Expr, scope: Scope, env: Env, st: State) {
    && env.Keys == scope.Keys && ExprBound(e, scope.Keys) && Holds(scope, env, st.slots)
    && CodeAt(code, st.pc, ExprCode(e, st.pc, scope))
  }

  /** The state an expression leaves: its value pushed, its bindings held, nothing else changed. */
  function After(st: State, n: nat, value: Value, slots: seq<Option<Value>>): (r: State) {
    State(st.pc + n, st.stack + [value], slots, st.result)
  }

  lemma {:induction false} ExprRuns(ops: Operators, code: seq<Op>, e: Expr, scope: Scope, env: Env, st: State)
    returns (slots: seq<Option<Value>>)
    requires Ready(code, e, scope, env, st)
    ensures Holds(scope, EvalExpr(ops, e, env).env, slots)
    ensures Reaches(Machine(ops, code), st, After(st, ExprLen(e), EvalExpr(ops, e, env).value, slots))
    decreases e, 1
  {
    hide Holds, CodeAt, Step, Machine, ExprCode;
    match e
    case Literal(value) =>
      slots := LiteralRuns(ops, code, e, scope, env, st);
    case Name(name) =>
      slots := NameRuns(ops, code, e, scope, env, st);
    case Assign(_, _, _) =>
      slots := AssignRuns(ops, code, e, scope, env, st);
    case BinaryExpr(op, _, _) =>
      if IsLogical(op) {
        slots := LogicalRuns(ops, code, e, scope, env, st);
      } else {
        slots := BinaryRuns(ops, code, e, scope, env, st);
      }
    case Conditional(_, _, _) =>
      slots := ConditionalRuns(ops, code, e, scope, env, st);
    case Sequence(_, _) =>
      slots := SequenceRuns(ops, code, e, scope, env, st);
  }

  lemma LiteralRuns(ops: Operators, code: seq<Op>, e: Expr, scope: Scope, env: Env, st: State)
    returns (slots: seq<Option<Value>>)
    requires Ready(code, e, scope, env, st) && e.Literal?
    ensures Holds(scope, EvalExpr(ops, e, env).env, slots)
    ensures Reaches(Machine(ops, code), st, After(st, ExprLen(e), EvalExpr(ops, e, env).value, slots))
  {
    hide Step, Machine, Holds, CodeAt, Reaches;
    LastOp(code, st.pc, Constant(e.value));
    slots := st.slots;
    StepConstant(ops, code, st, e.value);
    One(ops, code, st, After(st, 1, e.value, slots));
  }

  lemma NameRuns(ops: Operators, code: seq<Op>, e: Expr, scope: Scope, env: Env, st: State)
    returns (slots: seq<Option<Value>>)
    requires Ready(code, e, scope, env, st) && e.Name?
    ensures Holds(scope, EvalExpr(ops, e, env).env, slots)
    ensures Reaches(Machine(ops, code), st, After(st, ExprLen(e), EvalExpr(ops, e, env).value, slots))
  {
    hide Step, Machine, Holds, CodeAt, Reaches;
    LastOp(code, st.pc, Load(scope[e.name]));
    slots := st.slots;
    Loaded(scope, env, slots, e.name);
    StepLoad(ops, code, st, scope[e.name]);
    One(ops, code, st, After(st, 1, env[e.name], slots));
  }

  lemma One(ops: Operators, code: seq<Op>, a: State, b: State)
    requires Machine(ops, code)(a) == Some(b)
    ensures Reaches(Machine(ops, code), a, b)
  {
    hide Machine, Reaches;
    Here(Machine(ops, code), b);
    First(Machine(ops, code), a, b, b);
  }

  lemma SequenceRuns(ops: Operators, code: seq<Op>, e: Expr, scope: Scope, env: Env, st: State)
    returns (slots: seq<Option<Value>>)
    requires Ready(code, e, scope, env, st) && e.Sequence?
    ensures Holds(scope, EvalExpr(ops, e, env).env, slots)
    ensures Reaches(Machine(ops, code), st, After(st, ExprLen(e), EvalExpr(ops, e, env).value, slots))
    decreases e, 0
  {
    hide Step, Machine, Holds, CodeAt, Reaches, LogicalCode, ChoiceCode, CompoundCode;
    var m, at := Machine(ops, code), st.pc;
    SequenceStands(code, at, ExprCode(e.left, at, scope), ExprCode(e.right, at + ExprLen(e.left) + 1, scope));
    var l := EvalExpr(ops, e.left, env);
    var between := ExprRuns(ops, code, e.left, scope, env, st);
    var a := After(st, ExprLen(e.left), l.value, between);
    StepPop(ops, code, a, st.stack, l.value);
    var b := a.(pc := a.pc + 1, stack := st.stack);
    slots := ExprRuns(ops, code, e.right, scope, l.env, b);
    var c := After(b, ExprLen(e.right), EvalExpr(ops, e.right, l.env).value, slots);
    First(m, a, b, c);
    Then(m, st, a, c);
  }

  lemma SequenceStands(code: seq<Op>, at: nat, left: seq<Op>, right: seq<Op>)
    requires CodeAt(code, at, left + ([Pop] + right))
    ensures CodeAt(code, at, left) && IsOp(code, at + |left|, Pop) && CodeAt(code, at + |left| + 1, right)
  {
    hide CodeAt, IsOp;
    Split(code, at, left, [Pop] + right);
    FirstOp(code, at + |left|, Pop, right);
  }

  lemma BinaryRuns(ops: Operators, code: seq<Op>, e: Expr, scope: Scope, env: Env, st: State)
    returns (slots: seq<Option<Value>>)
    requires Ready(code, e, scope, env, st) && e.BinaryExpr? && !IsLogical(e.op)
    ensures Holds(scope, EvalExpr(ops, e, env).env, slots)
    ensures Reaches(Machine(ops, code), st, After(st, ExprLen(e), EvalExpr(ops, e, env).value, slots))
    decreases e, 0
  {
    hide Step, Machine, Holds, CodeAt, Reaches, LogicalCode, ChoiceCode, CompoundCode;
    var m, at, middle := Machine(ops, code), st.pc, st.pc + ExprLen(e.left);
    BinaryStands(code, at, ExprCode(e.left, at, scope), ExprCode(e.right, middle, scope), Apply(e.op));
    var l := EvalExpr(ops, e.left, env);
    var between := ExprRuns(ops, code, e.left, scope, env, st);
    var a := After(st, ExprLen(e.left), l.value, between);
    slots := ExprRuns(ops, code, e.right, scope, l.env, a);
    var r := EvalExpr(ops, e.right, l.env);
    var b := After(a, ExprLen(e.right), r.value, slots);
    StepApply(ops, code, b, e.op, st.stack, l.value, r.value);
    var c := After(st, ExprLen(e), ops.apply(e.op, l.value, r.value), slots);
    One(ops, code, b, c);
    Then(m, a, b, c);
    Then(m, st, a, c);
  }

  lemma BinaryStands(code: seq<Op>, at: nat, left: seq<Op>, right: seq<Op>, op: Op)
    requires CodeAt(code, at, left + (right + [op]))
    ensures CodeAt(code, at, left) && CodeAt(code, at + |left|, right) && IsOp(code, at + |left| + |right|, op)
  {
    hide CodeAt, IsOp;
    Split(code, at, left, right + [op]);
    Split(code, at + |left|, right, [op]);
    LastOp(code, at + |left| + |right|, op);
  }

  lemma LogicalRuns(ops: Operators, code: seq<Op>, e: Expr, scope: Scope, env: Env, st: State)
    returns (slots: seq<Option<Value>>)
    requires Ready(code, e, scope, env, st) && e.BinaryExpr? && IsLogical(e.op)
    ensures Holds(scope, EvalExpr(ops, e, env).env, slots)
    ensures Reaches(Machine(ops, code), st, After(st, ExprLen(e), EvalExpr(ops, e, env).value, slots))
    decreases e, 0
  {
    hide Step, Machine, Holds, CodeAt, Reaches, LogicalCode, ChoiceCode, CompoundCode;
    var m, at := Machine(ops, code), st.pc;
    var middle, end := at + ExprLen(e.left), at + ExprLen(e);
    LogicalStands(code, e.op, at, ExprCode(e.left, at, scope), ExprCode(e.right, middle + 3, scope));
    var l := EvalExpr(ops, e.left, env);
    var between := ExprRuns(ops, code, e.left, scope, env, st);
    var a := After(st, ExprLen(e.left), l.value, between);
    StepDup(ops, code, a, st.stack, l.value);
    var b := a.(pc := middle + 1, stack := st.stack + [l.value] + [l.value]);
    StepBranch(ops, code, b, end, TestOf(e.op), st.stack + [l.value], l.value);
    if TakesRight(ops, e.op, l.value) {
      var c := a.(pc := middle + 2);
      StepPop(ops, code, c, st.stack, l.value);
      var d := State(middle + 3, st.stack, between, st.result);
      slots := ExprRuns(ops, code, e.right, scope, l.env, d);
      var last := After(d, ExprLen(e.right), EvalExpr(ops, e.right, l.env).value, slots);
      First(m, c, d, last);
      First(m, b, c, last);
      First(m, a, b, last);
      Then(m, st, a, last);
    } else {
      slots := between;
      var last := a.(pc := end);
      One(ops, code, b, last);
      First(m, a, b, last);
      Then(m, st, a, last);
    }
  }

  lemma LogicalStands(code: seq<Op>, op: Binary, at: nat, left: seq<Op>, right: seq<Op>)
    requires CodeAt(code, at, LogicalCode(op, at, left, right))
    ensures var middle := at + |left|;
      CodeAt(code, at, left) && IsOp(code, middle, Dup)
      && IsOp(code, middle + 1, Branch(middle + 3 + |right|, TestOf(op))) && IsOp(code, middle + 2, Pop)
      && CodeAt(code, middle + 3, right)
  {
    hide CodeAt, IsOp;
    var middle := at + |left|;
    var branch := Branch(middle + 3 + |right|, TestOf(op));
    Split(code, at, left, [Dup] + ([branch] + ([Pop] + right)));
    FirstOp(code, middle, Dup, [branch] + ([Pop] + right));
    FirstOp(code, middle + 1, branch, [Pop] + right);
    FirstOp(code, middle + 2, Pop, right);
  }

  lemma ConditionalRuns(ops: Operators, code: seq<Op>, e: Expr, scope: Scope, env: Env, st: State)
    returns (slots: seq<Option<Value>>)
    requires Ready(code, e, scope, env, st) && e.Conditional?
    ensures Holds(scope, EvalExpr(ops, e, env).env, slots)
    ensures Reaches(Machine(ops, code), st, After(st, ExprLen(e), EvalExpr(ops, e, env).value, slots))
    decreases e, 0
  {
    hide Step, Machine, Holds, CodeAt, Reaches, ExprCode, ChoiceCode;
    ExprShape(e, st.pc, scope);
    var m, at := Machine(ops, code), st.pc;
    var start := at + ExprLen(e.condition) + 1;
    var other, end := start + ExprLen(e.yes) + 1, at + ExprLen(e);
    ChoiceStands(code, at, ExprCode(e.condition, at, scope), ExprCode(e.yes, start, scope),
        ExprCode(e.no, other, scope));
    var c := EvalExpr(ops, e.condition, env);
    var between := ExprRuns(ops, code, e.condition, scope, env, st);
    var a := After(st, ExprLen(e.condition), c.value, between);
    StepBranch(ops, code, a, other, False, st.stack, c.value);
    if ops.truthy(c.value) {
      var b := State(start, st.stack, between, st.result);
      slots := ExprRuns(ops, code, e.yes, scope, c.env, b);
      var d := After(b, ExprLen(e.yes), EvalExpr(ops, e.yes, c.env).value, slots);
      StepJump(ops, code, d, end);
      One(ops, code, d, d.(pc := end));
      Then(m, b, d, d.(pc := end));
      First(m, a, b, d.(pc := end));
      Then(m, st, a, d.(pc := end));
    } else {
      var b := State(other, st.stack, between, st.result);
      slots := ExprRuns(ops, code, e.no, scope, c.env, b);
      var d := After(b, ExprLen(e.no), EvalExpr(ops, e.no, c.env).value, slots);
      First(m, a, b, d);
      Then(m, st, a, d);
    }
  }

  lemma ChoiceStands(code: seq<Op>, at: nat, condition: seq<Op>, yes: seq<Op>, no: seq<Op>)
    requires CodeAt(code, at, ChoiceCode(at, condition, yes, no))
    ensures var start := at + |condition| + 1;
      var other := start + |yes| + 1;
      CodeAt(code, at, condition) && IsOp(code, start - 1, Branch(other, False))
      && CodeAt(code, start, yes) && IsOp(code, other - 1, Jump(other + |no|)) && CodeAt(code, other, no)
  {
    hide CodeAt, IsOp;
    var start := at + |condition| + 1;
    var other := start + |yes| + 1;
    var branch, jump := Branch(other, False), Jump(other + |no|);
    Split(code, at, condition, [branch] + (yes + ([jump] + no)));
    FirstOp(code, start - 1, branch, yes + ([jump] + no));
    Split(code, start, yes, [jump] + no);
    FirstOp(code, other - 1, jump, no);
  }

  lemma {:induction false} AssignRuns(ops: Operators, code: seq<Op>, e: Expr, scope: Scope, env: Env, st: State)
    returns (slots: seq<Option<Value>>)
    requires Ready(code, e, scope, env, st) && e.Assign?
    ensures Holds(scope, EvalExpr(ops, e, env).env, slots)
    ensures Reaches(Machine(ops, code), st, After(st, ExprLen(e), EvalExpr(ops, e, env).value, slots))
    decreases e, 0
  {
    hide Step, Machine, Holds, CodeAt, Reaches, LogicalCode, ChoiceCode, CompoundCode;
    var m, at, slot := Machine(ops, code), st.pc, scope[e.name];
    var r := EvalExpr(ops, e.right, env);
    var value := EvalExpr(ops, e, env).value;
    if e.operator.None? {
      AssignStands(code, at, ExprCode(e.right, at, scope), slot);
      var between := ExprRuns(ops, code, e.right, scope, env, st);
      var a := After(st, ExprLen(e.right), r.value, between);
      Stored(scope, r.env, between, e.name, value);
      slots := between[slot := Some(value)];
      StepStore(ops, code, a, slot, st.stack, value);
      One(ops, code, a, a.(pc := a.pc + 1, slots := slots));
      Then(m, st, a, a.(pc := a.pc + 1, slots := slots));
    } else {
      var op, end := e.operator.value, at + 1 + ExprLen(e.right);
      CompoundStands(code, at, slot, op, ExprCode(e.right, at + 1, scope));
      Loaded(scope, env, st.slots, e.name);
      StepLoad(ops, code, st, slot);
      var a := After(st, 1, env[e.name], st.slots);
      var between := ExprRuns(ops, code, e.right, scope, env, a);
      var b := After(a, ExprLen(e.right), r.value, between);
      StepApply(ops, code, b, op, st.stack, env[e.name], r.value);
      var c := State(end + 1, st.stack + [value], between, st.result);
      Stored(scope, r.env, between, e.name, value);
      slots := between[slot := Some(value)];
      StepStore(ops, code, c, slot, st.stack, value);
      var d := c.(pc := end + 2, slots := slots);
      One(ops, code, c, d);
      First(m, b, c, d);
      Then(m, a, b, d);
      First(m, st, a, d);
    }
  }

  lemma AssignStands(code: seq<Op>, at: nat, right: seq<Op>, slot: nat)
    requires CodeAt(code, at, right + [Store(slot)])
    ensures CodeAt(code, at, right) && IsOp(code, at + |right|, Store(slot))
  {
    hide CodeAt, IsOp;
    Split(code, at, right, [Store(slot)]);
    LastOp(code, at + |right|, Store(slot));
  }

  lemma CompoundStands(code: seq<Op>, at: nat, slot: nat, op: Binary, right: seq<Op>)
    requires CodeAt(code, at, CompoundCode(slot, op, right))
    ensures var end := at + 1 + |right|;
      IsOp(code, at, Load(slot)) && CodeAt(code, at + 1, right)
      && IsOp(code, end, Apply(op)) && IsOp(code, end + 1, Store(slot))
  {
    hide CodeAt, IsOp;
    var end := at + 1 + |right|;
    FirstOp(code, at, Load(slot), right + ([Apply(op)] + [Store(slot)]));
    Split(code, at + 1, right, [Apply(op)] + [Store(slot)]);
    FirstOp(code, end, Apply(op), [Store(slot)]);
    LastOp(code, end + 1, Store(slot));
  }

  // ---------- code of statements ----------

  function StmtLen(s: Stmt): (n: nat) {
    match s
    case ExprStmt(e) => ExprLen(e) + 1
    case If(condition, yes, no) =>
      2 + ExprLen(condition) + 1 + StmtLen(yes) + 1 + (if no.Some? then StmtLen(no.value) else 0)
    case Block(body) => ListLen(body)
    case While(condition, body) => 2 + ExprLen(condition) + 1 + StmtLen(body) + 1
    case DoWhile(body, condition) => 2 + StmtLen(body) + ExprLen(condition) + 1
    case Break => 1
    case Continue => 1
    case Empty => 0
  }

  function ListLen(body: seq<Stmt>): (n: nat) {
    if body == [] then 0 else StmtLen(body[0]) + ListLen(body[1..])
  }

  /** The value a statement starts from. */
  function FreshCode(rest: seq<Op>): (code: seq<Op>)
    ensures |code| == 2 + |rest|
  {
    [Constant(Undefined)] + ([Result] + rest)
  }

  /** A loop whose head is at `head`. */
  function WhileCode(head: nat, condition: seq<Op>, body: seq<Op>): (code: seq<Op>)
    ensures |code| == |condition| + 1 + |body| + 1
  {
    condition + ([Branch(head + |condition| + 1 + |body| + 1, False)] + (body + [Jump(head)]))
  }

  function DoWhileCode(head: nat, body: seq<Op>, condition: seq<Op>): (code: seq<Op>)
    ensures |code| == |body| + |condition| + 1
  {
    body + (condition + [Branch(head, True)])
  }

  /** The code of a statement that starts at `at`, in a loop that `break` leaves for `brk` and
      `continue` for `cont`. */
  function StmtCode(s: Stmt, at: nat, scope: Scope, brk: nat, cont: nat): (code: seq<Op>)
    requires StmtBound(s, scope.Keys)
    ensures |code| == StmtLen(s)
    decreases s
  {
    hide ExprCode, ExprLen, FreshCode, ChoiceCode, WhileCode, DoWhileCode, ExprBound;
    match s
    case ExprStmt(e) => ExprCode(e, at, scope) + [Result]
    case If(condition, yes, no) =>
      var start := at + 2 + ExprLen(condition) + 1;
      var other := start + StmtLen(yes) + 1;
      FreshCode(ChoiceCode(at + 2, ExprCode(condition, at + 2, scope), StmtCode(yes, start, scope, brk, cont),
        if no.Some? then StmtCode(no.value, other, scope, brk, cont) else []))
    case Block(body) => ListCode(body, at, scope, brk, cont)
    case While(condition, body) =>
      var start := at + 2 + ExprLen(condition) + 1;
      var next := start + StmtLen(body);
      FreshCode(WhileCode(at + 2, ExprCode(condition, at + 2, scope), StmtCode(body, start, scope, next + 1, next)))
    case DoWhile(body, condition) =>
      var next := at + 2 + StmtLen(body);
      FreshCode(DoWhileCode(at + 2, StmtCode(body, at + 2, scope, next + ExprLen(condition) + 1, next),
        ExprCode(condition, next, scope)))
    case Break => [AbruptJump(brk)]
    case Continue => [AbruptJump(cont)]
    case Empty => []
  }

  function ListCode(body: seq<Stmt>, at: nat, scope: Scope, brk: nat, cont: nat): (code: seq<Op>)
    requires ListBound(body, scope.Keys)
    ensures |code| == ListLen(body)
    decreases body
  {
    if body == [] then []
    else StmtCode(body[0], at, scope, brk, cont) + ListCode(body[1..], at + StmtLen(body[0]), scope, brk, cont)
  }

  lemma FreshStands(code: seq<Op>, at: nat, rest: seq<Op>)
    requires CodeAt(code, at, FreshCode(rest))
    ensures IsOp(code, at, Constant(Undefined)) && IsOp(code, at + 1, Result) && CodeAt(code, at + 2, rest)
  {
    hide CodeAt, IsOp;
    FirstOp(code, at, Constant(Undefined), [Result] + rest);
    FirstOp(code, at + 1, Result, rest);
  }

  lemma WhileStands(code: seq<Op>, head: nat, condition: seq<Op>, body: seq<Op>)
    requires CodeAt(code, head, WhileCode(head, condition, body))
    ensures var start := head + |condition| + 1;
      CodeAt(code, head, condition) && IsOp(code, start - 1, Branch(start + |body| + 1, False))
      && CodeAt(code, start, body) && IsOp(code, start + |body|, Jump(head))
  {
    hide CodeAt, IsOp;
    var start := head + |condition| + 1;
    var branch := Branch(start + |body| + 1, False);
    Split(code, head, condition, [branch] + (body + [Jump(head)]));
    FirstOp(code, start - 1, branch, body + [Jump(head)]);
    Split(code, start, body, [Jump(head)]);
    LastOp(code, start + |body|, Jump(head));
  }

  // ---------- running statements ----------

  /** Where a completion goes on. */
  function Exit(kind: Kind, end: nat, brk: nat, cont: nat): (pc: nat) {
    match kind
    case Normal => end
    case Breaks => brk
    case Continues => cont
  }

  /** A machine does what a completion says: it goes where the kind of it goes on, with the value of
      it as the result, or the result from before where the value is empty. Where there is no
      completion within the fuel, it goes on for as many steps. */
  ghost predicate Completes(ops: Operators, code: seq<Op>, st: State, r: Option<Completion>, fuel: nat, end: nat,
      brk: nat, cont: nat, scope: Scope, slots: seq<Option<Value>>) {
    if r.None? then RunsFor(Machine(ops, code), st, fuel)
    else
      && Holds(scope, r.value.env, slots)
      && Reaches(Machine(ops, code), st,
           State(Exit(r.value.kind, end, brk, cont), st.stack, slots, UpdateEmpty(r.value.value, st.result)))
  }

  ghost predicate StmtReady(code: seq<Op>, s: Stmt, scope: Scope, env: Env, st: State, brk: nat, cont: nat) {
    && env.Keys == scope.Keys && StmtBound(s, scope.Keys) && Holds(scope, env, st.slots)
    && CodeAt(code, st.pc, StmtCode(s, st.pc, scope, brk, cont))
  }

  lemma {:induction false} StmtRuns(ops: Operators, code: seq<Op>, s: Stmt, scope: Scope, env: Env, st: State,
      brk: nat, cont: nat, fuel: nat)
    returns (slots: seq<Option<Value>>)
    requires StmtReady(code, s, scope, env, st, brk, cont)
    ensures Completes(ops, code, st, EvalStmt(ops, s, env, fuel), fuel, st.pc + StmtLen(s), brk, cont, scope, slots)
    decreases fuel, s, 1
  {
    hide Machine, Holds, CodeAt, Reaches, ExprCode, ExprLen, ExprBound, Completes, FreshCode, WhileCode, DoWhileCode,
      ChoiceCode, EvalExpr, StmtReady;
    match s
    case ExprStmt(e) =>
      slots := ExprStmtRuns(ops, code, s, scope, env, st, brk, cont, fuel);
    case If(_, _, _) =>
      slots := IfRuns(ops, code, s, scope, env, st, brk, cont, fuel);
    case Block(body) =>
      slots := BlockRuns(ops, code, s, scope, env, st, brk, cont, fuel);
    case While(_, _) =>
      slots := LoopRuns(ops, code, s, scope, env, st, brk, cont, fuel);
    case DoWhile(_, _) =>
      slots := LoopRuns(ops, code, s, scope, env, st, brk, cont, fuel);
    case _ =>
      slots := LeafRuns(ops, code, s, scope, env, st, brk, cont, fuel);
  }

  lemma ExprStmtRuns(ops: Operators, code: seq<Op>, s: Stmt, scope: Scope, env: Env, st: State, brk: nat, cont: nat,
      fuel: nat)
    returns (slots: seq<Option<Value>>)
    requires StmtReady(code, s, scope, env, st, brk, cont) && s.ExprStmt?
    ensures Completes(ops, code, st, EvalStmt(ops, s, env, fuel), fuel, st.pc + StmtLen(s), brk, cont, scope, slots)
  {
    hide Machine, Holds, CodeAt, Reaches, ExprCode, ExprLen, ExprBound, EvalExpr;
    var m, e, at := Machine(ops, code), s.expression, st.pc;
    Split(code, at, ExprCode(e, at, scope), [Result]);
    LastOp(code, at + ExprLen(e), Result);
    slots := ExprRuns(ops, code, e, scope, env, st);
    var value := EvalExpr(ops, e, env).value;
    var a := After(st, ExprLen(e), value, slots);
    StepResult(ops, code, a, st.stack, value);
    var b := State(at + StmtLen(s), st.stack, slots, value);
    One(ops, code, a, b);
    Then(m, st, a, b);
  }

  lemma LeafRuns(ops: Operators, code: seq<Op>, s: Stmt, scope: Scope, env: Env, st: State, brk: nat, cont: nat,
      fuel: nat)
    returns (slots: seq<Option<Value>>)
    requires StmtReady(code, s, scope, env, st, brk, cont) && (s.Break? || s.Continue? || s.Empty?)
    ensures Completes(ops, code, st, EvalStmt(ops, s, env, fuel), fuel, st.pc + StmtLen(s), brk, cont, scope, slots)
  {
    hide Machine, Holds, CodeAt, Reaches, ExprCode;
    slots := st.slots;
    if s.Empty? {
      Here(Machine(ops, code), st);
    } else {
      var target := if s.Break? then brk else cont;
      LastOp(code, st.pc, AbruptJump(target));
      StepJump(ops, code, st, target);
      One(ops, code, st, st.(pc := target));
    }
  }

  /** What a machine does from a state it reaches, it does from before. */
  lemma Enter(ops: Operators, code: seq<Op>, a: State, b: State, r: Option<Completion>, fuel: nat, end: nat, brk: nat,
      cont: nat, scope: Scope, slots: seq<Option<Value>>)
    requires Reaches(Machine(ops, code), a, b)
    requires Completes(ops, code, b, r, fuel, end, brk, cont, scope, slots)
    ensures r.None? ==> RunsFor(Machine(ops, code), a, fuel)
    ensures r.Some? ==> Holds(scope, r.value.env, slots) && Reaches(Machine(ops, code), a,
      State(Exit(r.value.kind, end, brk, cont), b.stack, slots, UpdateEmpty(r.value.value, b.result)))
  {
    hide Machine, Holds, Reaches, RunsFor;
    if r.None? {
      RunsOn(Machine(ops, code), a, b, fuel);
    } else {
      Then(Machine(ops, code), a, b,
        State(Exit(r.value.kind, end, brk, cont), b.stack, slots, UpdateEmpty(r.value.value, b.result)));
    }
  }

  /** A statement that starts from undefined. */
  lemma Freshens(ops: Operators, code: seq<Op>, st: State, rest: seq<Op>)
    requires CodeAt(code, st.pc, FreshCode(rest))
    ensures CodeAt(code, st.pc + 2, rest)
    ensures Reaches(Machine(ops, code), st, st.(pc := st.pc + 2, result := Undefined))
  {
    hide Machine, CodeAt, Reaches, FreshCode;
    FreshStands(code, st.pc, rest);
    var a := st.(pc := st.pc + 1, stack := st.stack + [Undefined]);
    StepConstant(ops, code, st, Undefined);
    StepResult(ops, code, a, st.stack, Undefined);
    var b := st.(pc := st.pc + 2, result := Undefined);
    One(ops, code, a, b);
    First(Machine(ops, code), st, a, b);
  }

  lemma BlockRuns(ops: Operators, code: seq<Op>, s: Stmt, scope: Scope, env: Env, st: State, brk: nat, cont: nat,
      fuel: nat)
    returns (slots: seq<Option<Value>>)
    requires StmtReady(code, s, scope, env, st, brk, cont) && s.Block?
    ensures Completes(ops, code, st, EvalStmt(ops, s, env, fuel), fuel, st.pc + StmtLen(s), brk, cont, scope, slots)
    decreases fuel, s, 0
  {
    hide Machine, Holds, CodeAt, Reaches, Completes, ListCode, ListLen, EvalList;
    slots := ListRuns(ops, code, s.statements, scope, env, st, brk, cont, fuel);
  }

  lemma {:induction false} ListRuns(ops: Operators, code: seq<Op>, body: seq<Stmt>, scope: Scope, env: Env, st: State,
      brk: nat, cont: nat, fuel: nat)
    returns (slots: seq<Option<Value>>)
    requires env.Keys == scope.Keys && ListBound(body, scope.Keys) && Holds(scope, env, st.slots)
    requires CodeAt(code, st.pc, ListCode(body, st.pc, scope, brk, cont))
    ensures Completes(ops, code, st, EvalList(ops, body, env, fuel), fuel, st.pc + ListLen(body), brk, cont, scope,
        slots)
    decreases fuel, body, 0
  {
    hide Machine, Holds, CodeAt, Reaches, RunsFor, StmtCode, StmtLen, EvalStmt;
    slots := st.slots;
    if body == [] {
      Here(Machine(ops, code), st);
    } else {
      var next := st.pc + StmtLen(body[0]);
      Split(code, st.pc, StmtCode(body[0], st.pc, scope, brk, cont), ListCode(body[1..], next, scope, brk, cont));
      slots := StmtRuns(ops, code, body[0], scope, env, st, brk, cont, fuel);
      var first := EvalStmt(ops, body[0], env, fuel);
      if first.Some? && first.value.kind == Normal {
        var a := State(next, st.stack, slots, UpdateEmpty(first.value.value, st.result));
        slots := ListRuns(ops, code, body[1..], scope, first.value.env, a, brk, cont, fuel);
        Enter(ops, code, st, a, EvalList(ops, body[1..], first.value.env, fuel), fuel, st.pc + ListLen(body), brk,
            cont, scope, slots);
      }
    }
  }

  /** An `if` sets the result to undefined and goes to a branch. */
  lemma IfEnters(ops: Operators, code: seq<Op>, condition: Expr, yes: seq<Op>, no: seq<Op>, scope: Scope, env: Env,
      st: State)
    returns (slots: seq<Option<Value>>)
    requires env.Keys == scope.Keys && ExprBound(condition, scope.Keys) && Holds(scope, env, st.slots)
    requires CodeAt(code, st.pc, FreshCode(ChoiceCode(st.pc + 2, ExprCode(condition, st.pc + 2, scope), yes, no)))
    ensures Holds(scope, EvalExpr(ops, condition, env).env, slots)
    ensures var start := st.pc + 2 + ExprLen(condition) + 1;
      var other := start + |yes| + 1;
      CodeAt(code, start, yes) && IsOp(code, other - 1, Jump(other + |no|)) && CodeAt(code, other, no)
      && Reaches(Machine(ops, code), st, State(if ops.truthy(EvalExpr(ops, condition, env).value) then start
          else other, st.stack, slots, Undefined))
  {
    hide Machine, Holds, CodeAt, Reaches, ExprCode, ExprLen, EvalExpr, ExprBound, FreshCode, ChoiceCode;
    var m, at, x := Machine(ops, code), st.pc + 2, ExprCode(condition, st.pc + 2, scope);
    var start := at + ExprLen(condition) + 1;
    var other := start + |yes| + 1;
    Freshens(ops, code, st, ChoiceCode(at, x, yes, no));
    ChoiceStands(code, at, x, yes, no);
    var a := st.(pc := at, result := Undefined);
    slots := ExprRuns(ops, code, condition, scope, env, a);
    var c := EvalExpr(ops, condition, env);
    var b := After(a, ExprLen(condition), c.value, slots);
    StepBranch(ops, code, b, other, False, st.stack, c.value);
    var d := State(if ops.truthy(c.value) then start else other, st.stack, slots, Undefined);
    One(ops, code, b, d);
    Then(m, a, b, d);
    Then(m, st, a, d);
  }

  lemma IfRuns(ops: Operators, code: seq<Op>, s: Stmt, scope: Scope, env: Env, st: State, brk: nat, cont: nat,
      fuel: nat)
    returns (slots: seq<Option<Value>>)
    requires StmtReady(code, s, scope, env, st, brk, cont) && s.If?
    ensures Completes(ops, code, st, EvalStmt(ops, s, env, fuel), fuel, st.pc + StmtLen(s), brk, cont, scope, slots)
    decreases fuel, s, 0
  {
    hide Machine, Holds, CodeAt, Reaches, RunsFor, ExprCode, ExprLen, EvalExpr, ExprBound, FreshCode, ChoiceCode;
    var m, start := Machine(ops, code), st.pc + 2 + ExprLen(s.condition) + 1;
    var other, end := start + StmtLen(s.yes) + 1, st.pc + StmtLen(s);
    slots := IfEnters(ops, code, s.condition, StmtCode(s.yes, start, scope, brk, cont),
      if s.no.Some? then StmtCode(s.no.value, other, scope, brk, cont) else [], scope, env, st);
    var c := EvalExpr(ops, s.condition, env);
    var d := State(if ops.truthy(c.value) then start else other, st.stack, slots, Undefined);
    if ops.truthy(c.value) {
      var r := EvalStmt(ops, s.yes, c.env, fuel);
      slots := StmtRuns(ops, code, s.yes, scope, c.env, d, brk, cont, fuel);
      Enter(ops, code, st, d, r, fuel, other - 1, brk, cont, scope, slots);
      if r.Some? && r.value.kind == Normal {
        var f := State(other - 1, st.stack, slots, UpdateEmpty(r.value.value, Undefined));
        StepJump(ops, code, f, end);
        One(ops, code, f, f.(pc := end));
        Then(m, st, f, f.(pc := end));
      }
    } else if s.no.Some? {
      slots := StmtRuns(ops, code, s.no.value, scope, c.env, d, brk, cont, fuel);
      Enter(ops, code, st, d, EvalStmt(ops, s.no.value, c.env, fuel), fuel, end, brk, cont, scope, slots);
    }
  }

  lemma {:induction false} LoopRuns(ops: Operators, code: seq<Op>, s: Stmt, scope: Scope, env: Env, st: State,
      brk: nat, cont: nat, fuel: nat)
    returns (slots: seq<Option<Value>>)
    requires StmtReady(code, s, scope, env, st, brk, cont) && (s.While? || s.DoWhile?)
    ensures Completes(ops, code, st, EvalStmt(ops, s, env, fuel), fuel, st.pc + StmtLen(s), brk, cont, scope, slots)
    decreases fuel, s, 0
  {
    hide Machine, Holds, CodeAt, Reaches, RunsFor, ExprCode, ExprLen, ExprBound, FreshCode, WhileCode, DoWhileCode,
      EvalWhile, EvalDoWhile;
    var head, end := st.pc + 2, st.pc + StmtLen(s);
    var a := st.(pc := head, result := Undefined);
    if s.While? {
      var start := head + ExprLen(s.condition) + 1;
      var next := start + StmtLen(s.body);
      Freshens(ops, code, st,
        WhileCode(head, ExprCode(s.condition, head, scope), StmtCode(s.body, start, scope, next + 1, next)));
      slots := WhileRuns(ops, code, s.condition, s.body, scope, env, a, brk, cont, fuel);
      Enter(ops, code, st, a, EvalStmt(ops, s, env, fuel), fuel, end, brk, cont, scope, slots);
    } else {
      var next := head + StmtLen(s.body);
      Freshens(ops, code, st, DoWhileCode(head, StmtCode(s.body, head, scope, end, next),
        ExprCode(s.condition, next, scope)));
      slots := DoWhileRuns(ops, code, s.body, s.condition, scope, env, a, brk, cont, fuel);
      Enter(ops, code, st, a, EvalStmt(ops, s, env, fuel), fuel, end, brk, cont, scope, slots);
    }
  }

  /** A `while`, from its condition on. */
  lemma {:induction false} WhileRuns(ops: Operators, code: seq<Op>, condition: Expr, body: Stmt, scope: Scope,
      env: Env, st: State, brk: nat, cont: nat, fuel: nat)
    returns (slots: seq<Option<Value>>)
    requires env.Keys == scope.Keys && Holds(scope, env, st.slots)
    requires ExprBound(condition, scope.Keys) && StmtBound(body, scope.Keys)
    requires var start := st.pc + ExprLen(condition) + 1;
      var next := start + StmtLen(body);
      CodeAt(code, st.pc,
        WhileCode(st.pc, ExprCode(condition, st.pc, scope), StmtCode(body, start, scope, next + 1, next)))
    ensures var end := st.pc + ExprLen(condition) + 1 + StmtLen(body) + 1;
      Completes(ops, code, st, EvalWhile(ops, condition, body, env, st.result, fuel), fuel, end, brk, cont, scope,
          slots)
    decreases fuel, body, 3
  {
    hide Machine, Holds, CodeAt, Reaches, RunsFor, ExprCode, ExprLen, EvalExpr, ExprBound, WhileCode, StmtCode, StmtLen,
      StmtBound, EvalStmt, EvalWhileBody;
    var m, head := Machine(ops, code), st.pc;
    var start := head + ExprLen(condition) + 1;
    var next := start + StmtLen(body);
    WhileStands(code, head, ExprCode(condition, head, scope), StmtCode(body, start, scope, next + 1, next));
    var c := EvalExpr(ops, condition, env);
    slots := ExprRuns(ops, code, condition, scope, env, st);
    var a := After(st, ExprLen(condition), c.value, slots);
    StepBranch(ops, code, a, next + 1, False, st.stack, c.value);
    var b := State(if ops.truthy(c.value) then start else next + 1, st.stack, slots, st.result);
    One(ops, code, a, b);
    Then(m, st, a, b);
    if ops.truthy(c.value) {
      slots := WhileBodyRuns(ops, code, condition, body, scope, c.env, b, head, brk, cont, fuel);
      Enter(ops, code, st, b, EvalWhileBody(ops, condition, body, c.env, st.result, fuel), fuel,
        next + 1, brk, cont, scope, slots);
    }
  }

  /** A `while` from its body on. */
  lemma {:induction false} WhileBodyRuns(ops: Operators, code: seq<Op>, condition: Expr, body: Stmt, scope: Scope,
      env: Env, st: State, head: nat, brk: nat, cont: nat, fuel: nat)
    returns (slots: seq<Option<Value>>)
    requires env.Keys == scope.Keys && Holds(scope, env, st.slots)
    requires ExprBound(condition, scope.Keys) && StmtBound(body, scope.Keys)
    requires st.pc == head + ExprLen(condition) + 1
    requires var next := st.pc + StmtLen(body);
      CodeAt(code, head,
        WhileCode(head, ExprCode(condition, head, scope), StmtCode(body, st.pc, scope, next + 1, next)))
    ensures Completes(ops, code, st, EvalWhileBody(ops, condition, body, env, st.result, fuel), fuel,
      st.pc + StmtLen(body) + 1, brk, cont, scope, slots)
    decreases fuel, body, 2
  {
    hide Machine, Holds, CodeAt, Reaches, RunsFor, ExprCode, ExprLen, EvalExpr, ExprBound, WhileCode, StmtCode, StmtLen,
      StmtBound, EvalStmt, EvalWhile;
    var next := st.pc + StmtLen(body);
    WhileStands(code, head, ExprCode(condition, head, scope), StmtCode(body, st.pc, scope, next + 1, next));
    var r := EvalStmt(ops, body, env, fuel);
    slots := StmtRuns(ops, code, body, scope, env, st, next + 1, next, fuel);
    if r.Some? && r.value.kind != Breaks {
      var value := UpdateEmpty(r.value.value, st.result);
      var a := State(next, st.stack, slots, value);
      StepJump(ops, code, a, head);
      var b := a.(pc := head);
      if fuel > 0 {
        slots := WhileRuns(ops, code, condition, body, scope, r.value.env, b, brk, cont, fuel - 1);
      }
      AfterRound(ops, code, st, a, b,
        if fuel == 0 then None else EvalWhile(ops, condition, body, r.value.env, value, fuel - 1),
        fuel, next + 1, brk, cont, scope, slots);
    }
  }

  /** A loop goes back by a step, so that the rounds it can go are not more than the steps. */
  lemma AfterRound(ops: Operators, code: seq<Op>, st: State, a: State, b: State, r: Option<Completion>, fuel: nat,
      end: nat, brk: nat, cont: nat, scope: Scope, slots: seq<Option<Value>>)
    requires Reaches(Machine(ops, code), st, a) && Machine(ops, code)(a) == Some(b)
    requires b.stack == st.stack && (r.Some? ==> r.value.value.Some?)
    requires if fuel == 0 then r.None? else Completes(ops, code, b, r, fuel - 1, end, brk, cont, scope, slots)
    ensures Completes(ops, code, st, r, fuel, end, brk, cont, scope, slots)
  {
    hide Machine, Holds, Reaches;
    var m := Machine(ops, code);
    if r.None? {
      if fuel > 0 {
        RunsOne(m, a, b, fuel - 1);
        RunsOn(m, st, a, fuel);
      }
    } else {
      var last := State(Exit(r.value.kind, end, brk, cont), b.stack, slots, r.value.value.value);
      First(m, a, b, last);
      Then(m, st, a, last);
    }
  }

  lemma DoWhileStands(code: seq<Op>, head: nat, body: seq<Op>, condition: seq<Op>)
    requires CodeAt(code, head, DoWhileCode(head, body, condition))
    ensures var next := head + |body|;
      CodeAt(code, head, body) && CodeAt(code, next, condition) && IsOp(code, next + |condition|, Branch(head, True))
  {
    hide CodeAt, IsOp;
    BinaryStands(code, head, body, condition, Branch(head, True));
  }

  /** A `do-while` whose head is at `head` stands in the code. */
  ghost predicate DoWhileAt(code: seq<Op>, head: nat, body: Stmt, condition: Expr, scope: Scope) {
    && ExprBound(condition, scope.Keys) && StmtBound(body, scope.Keys)
    && var next := head + StmtLen(body);
       CodeAt(code, head, DoWhileCode(head, StmtCode(body, head, scope, next + ExprLen(condition) + 1, next),
         ExprCode(condition, next, scope)))
  }

  /** A `do-while`, from its body on. */
  lemma {:induction false} DoWhileRuns(ops: Operators, code: seq<Op>, body: Stmt, condition: Expr, scope: Scope,
      env: Env, st: State, brk: nat, cont: nat, fuel: nat)
    returns (slots: seq<Option<Value>>)
    requires env.Keys == scope.Keys && Holds(scope, env, st.slots) && DoWhileAt(code, st.pc, body, condition, scope)
    ensures var end := st.pc + StmtLen(body) + ExprLen(condition) + 1;
      Completes(ops, code, st, EvalDoWhile(ops, body, condition, env, st.result, fuel), fuel, end, brk, cont, scope,
          slots)
    decreases fuel, body, 3
  {
    hide Machine, Holds, CodeAt, Reaches, RunsFor, ExprCode, ExprLen, EvalExpr, ExprBound, DoWhileCode, StmtCode,
        StmtLen,
      StmtBound, EvalStmt, EvalDoWhileTest;
    var m, head := Machine(ops, code), st.pc;
    var next := head + StmtLen(body);
    var end := next + ExprLen(condition) + 1;
    DoWhileStands(code, head, StmtCode(body, head, scope, end, next), ExprCode(condition, next, scope));
    var r := EvalStmt(ops, body, env, fuel);
    slots := StmtRuns(ops, code, body, scope, env, st, end, next, fuel);
    if r.Some? && r.value.kind != Breaks {
      var a := State(next, st.stack, slots, UpdateEmpty(r.value.value, st.result));
      slots := DoWhileTestRuns(ops, code, body, condition, scope, r.value.env, a, head, brk, cont, fuel);
      Enter(ops, code, st, a, EvalDoWhileTest(ops, body, condition, r.value.env, a.result, fuel), fuel, end,
        brk, cont, scope, slots);
    }
  }

  /** A `do-while`, from its condition on. */
  lemma {:induction false} DoWhileTestRuns(ops: Operators, code: seq<Op>, body: Stmt, condition: Expr, scope: Scope,
      env: Env, st: State, head: nat, brk: nat, cont: nat, fuel: nat)
    returns (slots: seq<Option<Value>>)
    requires env.Keys == scope.Keys && Holds(scope, env, st.slots) && DoWhileAt(code, head, body, condition, scope)
    requires st.pc == head + StmtLen(body)
    ensures Completes(ops, code, st, EvalDoWhileTest(ops, body, condition, env, st.result, fuel), fuel,
      st.pc + ExprLen(condition) + 1, brk, cont, scope, slots)
    decreases fuel, body, 2
  {
    hide Machine, Holds, CodeAt, Reaches, RunsFor, ExprCode, ExprLen, EvalExpr, ExprBound, DoWhileCode, StmtCode,
        StmtLen,
      StmtBound, EvalStmt, EvalDoWhile;
    var m, end := Machine(ops, code), st.pc + ExprLen(condition) + 1;
    DoWhileStands(code, head, StmtCode(body, head, scope, end, st.pc), ExprCode(condition, st.pc, scope));
    var c := EvalExpr(ops, condition, env);
    slots := ExprRuns(ops, code, condition, scope, env, st);
    var b := After(st, ExprLen(condition), c.value, slots);
    StepBranch(ops, code, b, head, True, st.stack, c.value);
    if ops.truthy(c.value) {
      var d := State(head, st.stack, slots, st.result);
      if fuel > 0 {
        slots := DoWhileRuns(ops, code, body, condition, scope, c.env, d, brk, cont, fuel - 1);
      }
      AfterRound(ops, code, st, b, d, EvalDoWhileTest(ops, body, condition, env, st.result, fuel),
        fuel, end, brk, cont, scope, slots);
    } else {
      var d := State(end, st.stack, slots, st.result);
      One(ops, code, b, d);
      Then(m, st, b, d);
    }
  }
}
