/** The source language: a fragment of ECMAScript with loops, and what its programs mean. */
module Source {
  import opened Wrappers

  /** A primitive value. A number is a binary64 bit pattern, a string its UTF-16 units. */
  datatype Value = Undefined | Null | Boolean(b: bool) | Number(bits: nat) | String(units: seq<nat>)

  datatype Binary =
    | Pow | Add | Sub | Mul | Div | Rem
    | Lt | Le | Gt | Ge | Eq | Ne | StrictEq | StrictNe
    | And | Or | Nullish
    | BitAnd | BitOr | BitXor | Shl | Shr | Ushr

  datatype Expr =
    | Literal(value: Value)
    | Name(name: string)
    | Assign(name: string, operator: Option<Binary>, right: Expr)
    | BinaryExpr(op: Binary, left: Expr, right: Expr)
    | Conditional(condition: Expr, yes: Expr, no: Expr)
    | Sequence(left: Expr, right: Expr)

  datatype Stmt =
    | ExprStmt(expression: Expr)
    | If(condition: Expr, yes: Stmt, no: Option<Stmt>)
    | Block(statements: seq<Stmt>)
    | While(condition: Expr, body: Stmt)
    | DoWhile(body: Stmt, condition: Expr)
    | Break
    | Continue
    | Empty

  type Env = map<string, Value>

  /** What the operators answer, and which values count as true. Both backends share them. */
  datatype Operators = Operators(apply: (Binary, Value, Value) -> Value, truthy: Value -> bool)

  predicate IsLogical(op: Binary) {
    op.And? || op.Or? || op.Nullish?
  }

  /** Whether a short-circuit operator goes on to its right operand. */
  predicate TakesRight(ops: Operators, op: Binary, left: Value) {
    match op
    case And => ops.truthy(left)
    case Or => !ops.truthy(left)
    case _ => left.Undefined? || left.Null?
  }

  // ---------- names ----------

  predicate ExprBound(e: Expr, names: set<string>) {
    match e
    case Literal(_) => true
    case Name(name) => name in names
    case Assign(name, _, right) => name in names && ExprBound(right, names)
    case BinaryExpr(_, left, right) => ExprBound(left, names) && ExprBound(right, names)
    case Conditional(condition, yes, no) =>
      ExprBound(condition, names) && ExprBound(yes, names) && ExprBound(no, names)
    case Sequence(left, right) => ExprBound(left, names) && ExprBound(right, names)
  }

  predicate StmtBound(s: Stmt, names: set<string>) {
    match s
    case ExprStmt(e) => ExprBound(e, names)
    case If(condition, yes, no) =>
      ExprBound(condition, names) && StmtBound(yes, names) && (no.Some? ==> StmtBound(no.value, names))
    case Block(body) => ListBound(body, names)
    case While(condition, body) => ExprBound(condition, names) && StmtBound(body, names)
    case DoWhile(body, condition) => StmtBound(body, names) && ExprBound(condition, names)
    case Break => true
    case Continue => true
    case Empty => true
  }

  predicate ListBound(body: seq<Stmt>, names: set<string>) {
    body == [] || (StmtBound(body[0], names) && ListBound(body[1..], names))
  }

  // ---------- expressions ----------

  datatype Valued = Valued(value: Value, env: Env)

  function EvalExpr(ops: Operators, e: Expr, env: Env): (r: Valued)
    requires ExprBound(e, env.Keys)
    ensures r.env.Keys == env.Keys
  {
    match e
    case Literal(value) => Valued(value, env)
    case Name(name) => Valued(env[name], env)
    case Assign(name, operator, right) =>
      var r := EvalExpr(ops, right, env);
      var value := if operator.Some? then ops.apply(operator.value, env[name], r.value) else r.value;
      Valued(value, r.env[name := value])
    case BinaryExpr(op, left, right) =>
      var l := EvalExpr(ops, left, env);
      if IsLogical(op) then
        if TakesRight(ops, op, l.value) then EvalExpr(ops, right, l.env) else l
      else
        var r := EvalExpr(ops, right, l.env);
        Valued(ops.apply(op, l.value, r.value), r.env)
    case Conditional(condition, yes, no) =>
      var c := EvalExpr(ops, condition, env);
      if ops.truthy(c.value) then EvalExpr(ops, yes, c.env) else EvalExpr(ops, no, c.env)
    case Sequence(left, right) =>
      EvalExpr(ops, right, EvalExpr(ops, left, env).env)
  }

  // ---------- statements: completion records, sections 6.2.4 and 14 of ECMA-262 ----------

  datatype Kind = Normal | Breaks | Continues

  /** A completion: its kind, its value, which may be empty, and the bindings it leaves. */
  datatype Completion = Completion(kind: Kind, value: Option<Value>, env: Env)

  /** UpdateEmpty of section 6.2.4.3. */
  function UpdateEmpty(value: Option<Value>, other: Value): (r: Value) {
    if value.Some? then value.value else other
  }

  /** What a statement does when no loop goes back more than `fuel` times in all; nothing when that
      does not suffice. */
  function EvalStmt(ops: Operators, s: Stmt, env: Env, fuel: nat): (r: Option<Completion>)
    requires StmtBound(s, env.Keys)
    ensures r.Some? ==> r.value.env.Keys == env.Keys
    decreases fuel, s, 0
  {
    match s
    case ExprStmt(e) =>
      var r := EvalExpr(ops, e, env);
      Some(Completion(Normal, Some(r.value), r.env))
    case If(condition, yes, no) =>
      var c := EvalExpr(ops, condition, env);
      if ops.truthy(c.value) then Valuable(EvalStmt(ops, yes, c.env, fuel))
      else if no.Some? then Valuable(EvalStmt(ops, no.value, c.env, fuel))
      else Some(Completion(Normal, Some(Undefined), c.env))
    case Block(body) => EvalList(ops, body, env, fuel)
    case While(condition, body) => EvalWhile(ops, condition, body, env, Undefined, fuel)
    case DoWhile(body, condition) => EvalDoWhile(ops, body, condition, env, Undefined, fuel)
    case Break => Some(Completion(Breaks, None, env))
    case Continue => Some(Completion(Continues, None, env))
    case Empty => Some(Completion(Normal, None, env))
  }

  /** The completion of an `if`, whose value is never empty: section 14.6.2. */
  function Valuable(r: Option<Completion>): (v: Option<Completion>) {
    if r.None? then None
    else Some(r.value.(value := Some(UpdateEmpty(r.value.value, Undefined))))
  }

  /** A statement list: a value that is empty is updated by the ones before, section 14.2.2. */
  function EvalList(ops: Operators, body: seq<Stmt>, env: Env, fuel: nat): (r: Option<Completion>)
    requires ListBound(body, env.Keys)
    ensures r.Some? ==> r.value.env.Keys == env.Keys
    decreases fuel, body, 0
  {
    if body == [] then Some(Completion(Normal, None, env))
    else
      var first := EvalStmt(ops, body[0], env, fuel);
      if first.None? || first.value.kind != Normal then first
      else
        var rest := EvalList(ops, body[1..], first.value.env, fuel);
        if rest.None? then None
        else Some(rest.value.(value := if rest.value.value.Some? then rest.value.value else first.value.value))
  }

  /** A `while` from its condition on, with the value so far: section 14.7.3.2. */
  function EvalWhile(ops: Operators, condition: Expr, body: Stmt, env: Env, value: Value, fuel: nat)
    : (r: Option<Completion>)
    requires ExprBound(condition, env.Keys) && StmtBound(body, env.Keys)
    ensures r.Some? ==> r.value.env.Keys == env.Keys && r.value.kind == Normal && r.value.value.Some?
    decreases fuel, body, 2
  {
    var c := EvalExpr(ops, condition, env);
    if !ops.truthy(c.value) then Some(Completion(Normal, Some(value), c.env))
    else EvalWhileBody(ops, condition, body, c.env, value, fuel)
  }

  /** A `while` from its body on. */
  function EvalWhileBody(ops: Operators, condition: Expr, body: Stmt, env: Env, value: Value, fuel: nat)
    : (r: Option<Completion>)
    requires ExprBound(condition, env.Keys) && StmtBound(body, env.Keys)
    ensures r.Some? ==> r.value.env.Keys == env.Keys && r.value.kind == Normal && r.value.value.Some?
    decreases fuel, body, 1
  {
    var r := EvalStmt(ops, body, env, fuel);
    if r.None? then None
    else
      var next := UpdateEmpty(r.value.value, value);
      if r.value.kind == Breaks then Some(Completion(Normal, Some(next), r.value.env))
      else if fuel == 0 then None
      else EvalWhile(ops, condition, body, r.value.env, next, fuel - 1)
  }

  /** A `do-while` from its body on, with the value so far: section 14.7.2.2. */
  function EvalDoWhile(ops: Operators, body: Stmt, condition: Expr, env: Env, value: Value, fuel: nat)
    : (r: Option<Completion>)
    requires ExprBound(condition, env.Keys) && StmtBound(body, env.Keys)
    ensures r.Some? ==> r.value.env.Keys == env.Keys && r.value.kind == Normal && r.value.value.Some?
    decreases fuel, body, 2
  {
    var r := EvalStmt(ops, body, env, fuel);
    if r.None? then None
    else
      var next := UpdateEmpty(r.value.value, value);
      if r.value.kind == Breaks then Some(Completion(Normal, Some(next), r.value.env))
      else EvalDoWhileTest(ops, body, condition, r.value.env, next, fuel)
  }

  /** A `do-while` from its condition on. */
  function EvalDoWhileTest(ops: Operators, body: Stmt, condition: Expr, env: Env, value: Value, fuel: nat)
    : (r: Option<Completion>)
    requires ExprBound(condition, env.Keys) && StmtBound(body, env.Keys)
    ensures r.Some? ==> r.value.env.Keys == env.Keys && r.value.kind == Normal && r.value.value.Some?
    decreases fuel, body, 1
  {
    var c := EvalExpr(ops, condition, env);
    if !ops.truthy(c.value) then Some(Completion(Normal, Some(value), c.env))
    else if fuel == 0 then None
    else EvalDoWhile(ops, body, condition, c.env, value, fuel - 1)
  }
}
