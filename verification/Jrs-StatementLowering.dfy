/** The lowering of statements. */
module StatementLowering {
  import opened Wrappers
  import opened Source
  import opened RegisterTypes
  import opened TypeInference
  import opened RegisterMachine
  import opened ExpressionLowering

  /** How a statement ends, as the lowering knows it: without a value, with one of a type, or never
      at its end. */
  datatype Flow = FlowEmpty | FlowValue(ty: RegType) | FlowAbrupt

  /** The two attempts at a loop: with the types at hand, or with those its body can produce. */
  datatype Head = Declared | Widened

  /** The loop around a statement: where its value is kept, what its bindings are at its head, and
      where `break` and `continue` go. */
  datatype Loop = Loop(result: nat, head: Bindings, brk: nat, cont: nat)

  datatype LoweredStmt = LoweredStmt(code: seq<Instr>, flow: Flow, after: Bindings)

  /** Whether a statement never reaches its end. */
  predicate Abrupt(s: Stmt) {
    match s
    case Break => true
    case Continue => true
    case If(_, yes, no) => no.Some? && Abrupt(yes) && Abrupt(no.value)
    case Block(body) => ListAbrupt(body)
    case _ => false
  }

  predicate ListAbrupt(body: seq<Stmt>) {
    body != [] && (Abrupt(body[0]) || ListAbrupt(body[1..]))
  }

  /** Whether a statement that reaches its end has a value. */
  predicate HasValue(s: Stmt) {
    match s
    case Block(body) => ListHasValue(body)
    case Empty => false
    case _ => true
  }

  predicate ListHasValue(body: seq<Stmt>) {
    body != [] && (HasValue(body[0]) || ListHasValue(body[1..]))
  }

  /** The length of the code of a statement. In a block or a branch (`inner`) a jump is one longer: it
      fetches the value first. */
  function StmtLen(s: Stmt, inner: bool): (n: nat) {
    match s
    case ExprStmt(e) => ExprLen(e)
    case If(condition, yes, no) =>
      ExprLen(condition) + 3 + StmtLen(yes, true) + (if Abrupt(yes) then 0 else 1) + 2
      + (if no.Some? then StmtLen(no.value, true) else 0)
    case Block(body) => 1 + ListLen(body) + (if ListAbrupt(body) then 0 else 1)
    case While(condition, body) => 2 + ExprLen(condition) + 2 + StmtLen(body, false) + (if Abrupt(body) then 0 else 1)
        + 2
    case DoWhile(body, condition) => 3 + StmtLen(body, false) + (if Abrupt(body) then 0 else 1) + ExprLen(condition) + 2
    case Break => if inner then 3 else 2
    case Continue => if inner then 3 else 2
    case Empty => 0
  }

  function ListLen(body: seq<Stmt>): (n: nat) {
    if body == [] then 0
    else if Abrupt(body[0]) then StmtLen(body[0], true)
    else StmtLen(body[0], true) + (if HasValue(body[0]) then 1 else 0) + ListLen(body[1..])
  }

  // ---------- code ----------

  /** A jump out of a round at `at`: the value so far is kept for the loop. */
  function LeaveCode(at: nat, completion: Option<nat>, result: nat, target: nat): (code: seq<Instr>)
    ensures |code| == if completion.Some? then 3 else 2
  {
    if completion.Some? then [Ldar(completion.value)] + ([Star(result)] + [Jump(target - (at + 3))])
    else [Star(result)] + [Jump(target - (at + 2))]
  }

  /** A branch: it starts from undefined. */
  function BranchCode(completion: nat, body: seq<Instr>): (code: seq<Instr>)
    ensures |code| == 2 + |body|
  {
    [Lda(Undefined)] + ([Star(completion)] + body)
  }

  function IfCode(condition: seq<Instr>, yes: seq<Instr>, abrupt: bool, no: seq<Instr>): (code: seq<Instr>)
    ensures |code| == |condition| + 1 + |yes| + (if abrupt then 0 else 1) + |no|
  {
    var jump := if abrupt then [] else [Jump(|no|)];
    condition + ([JumpIfFalse(|yes| + |jump|)] + (yes + (jump + no)))
  }

  function BlockCode(result: nat, body: seq<Instr>, abrupt: bool): (code: seq<Instr>)
    ensures |code| == 1 + |body| + (if abrupt then 0 else 1)
  {
    [Star(result)] + (body + if abrupt then [] else [Ldar(result)])
  }

  /** The value of a body that reached its end. */
  function KeepCode(result: nat, abrupt: bool): (code: seq<Instr>)
    ensures |code| == if abrupt then 0 else 1
  {
    if abrupt then [] else [Star(result)]
  }

  /** A round: the value so far is fetched for the body, and kept after it. */
  function RoundCode(result: nat, body: seq<Instr>, abrupt: bool): (code: seq<Instr>)
    ensures |code| == 1 + |body| + (if abrupt then 0 else 1)
  {
    [Ldar(result)] + (body + KeepCode(result, abrupt))
  }

  /** A `while` from its condition on. */
  function TestedCode(result: nat, condition: seq<Instr>, round: seq<Instr>): (code: seq<Instr>)
    ensures |code| == |condition| + |round| + 3
  {
    condition + ([JumpIfFalse(|round| + 1)] + (round + ([Jump(-(|condition| + 1 + |round| + 1))] + [Ldar(result)])))
  }

  function WhileCode(result: nat, condition: seq<Instr>, body: seq<Instr>, abrupt: bool): (code: seq<Instr>)
    ensures |code| == 2 + |condition| + 2 + |body| + (if abrupt then 0 else 1) + 2
  {
    [Lda(Undefined)] + ([Star(result)] + TestedCode(result, condition, RoundCode(result, body, abrupt)))
  }

  function DoWhileCode(result: nat, body: seq<Instr>, abrupt: bool, condition: seq<Instr>): (code: seq<Instr>)
    ensures |code| == 3 + |body| + (if abrupt then 0 else 1) + |condition| + 2
  {
    var round := RoundCode(result, body, abrupt);
    [Lda(Undefined)] + ([Star(result)]
    + (round + (condition + ([JumpIfTrue(-(|round| + |condition| + 1))] + [Ldar(result)]))))
  }

  // ---------- the lowering ----------

  /** The bindings where two branches meet. */
  function Join(yes: LoweredStmt, no: LoweredStmt): (b: Option<Bindings>) {
    if yes.flow.FlowAbrupt? then Some(no.after)
    else if no.flow.FlowAbrupt? then Some(yes.after)
    else MergeBindings(yes.after, no.after)
  }

  /** How an `if` ends: section 14.6.2 updates an empty value to undefined. */
  function JoinFlow(yes: Flow, no: Flow): (f: Flow) {
    match (yes, no)
    case (FlowAbrupt, FlowAbrupt) => FlowAbrupt
    case (FlowValue(x), FlowValue(y)) => FlowValue(Merge(x, y))
    case (FlowValue(x), FlowAbrupt) => FlowValue(x)
    case (FlowAbrupt, FlowValue(y)) => FlowValue(y)
    case (FlowEmpty, FlowValue(y)) => FlowValue(Merge(TUndefined, y))
    case (FlowValue(x), FlowEmpty) => FlowValue(Merge(TUndefined, x))
    case _ => FlowValue(TUndefined)
  }

  /** The lowering of a statement that starts at `at`; registers from `base` on are free, and the
      value so far is in the accumulator and, in a block or a branch, in the register `completion`.
      Nothing when it is refused. */
  ghost function LowerStmt(s: Stmt, at: nat, b: Bindings, base: nat, loop: Option<Loop>, completion: Option<nat>,
      mode: Head)
    : (r: Option<LoweredStmt>)
    ensures r.Some? ==> |r.value.code| == StmtLen(s, completion.Some?)
    ensures r.Some? ==> (r.value.flow.FlowAbrupt? <==> Abrupt(s))
    ensures r.Some? && !Abrupt(s) ==> (r.value.flow.FlowValue? <==> HasValue(s))
    decreases s, 2
  {
    match s
    case ExprStmt(e) =>
      var r := LowerExpr(e, b, base);
      if r.None? then None else Some(LoweredStmt(r.value.code, FlowValue(r.value.ty), r.value.after))
    case If(_, _, _) => LowerIf(s, at, b, base, loop, mode)
    case Block(body) =>
      if base + 1 > LAST_REGISTER then None else
      var r := LowerList(body, at + 1, b, base + 1, loop, base, mode);
      if r.None? then None else
      Some(LoweredStmt(BlockCode(base, r.value.code, r.value.flow.FlowAbrupt?), r.value.flow, r.value.after))
    case While(_, _) => LowerLoop(s, at, b, base, mode)
    case DoWhile(_, _) => LowerLoop(s, at, b, base, mode)
    case Break =>
      if loop.None? || !Fits(b, loop.value.head) then None else
      Some(LoweredStmt(LeaveCode(at, completion, loop.value.result, loop.value.brk), FlowAbrupt, b))
    case Continue =>
      if loop.None? || !Fits(b, loop.value.head) then None else
      Some(LoweredStmt(LeaveCode(at, completion, loop.value.result, loop.value.cont), FlowAbrupt, b))
    case Empty => Some(LoweredStmt([], FlowEmpty, b))
  }

  ghost function LowerIf(s: Stmt, at: nat, b: Bindings, base: nat, loop: Option<Loop>, mode: Head)
    : (r: Option<LoweredStmt>)
    requires s.If?
    ensures r.Some? ==> |r.value.code| == StmtLen(s, false)
    ensures r.Some? ==> (r.value.flow.FlowAbrupt? <==> Abrupt(s))
    ensures r.Some? && !Abrupt(s) ==> r.value.flow.FlowValue?
    decreases s, 1
  {
    hide LowerExpr, BranchCode, IfCode, Merge, MergeBindings;
    var c := LowerExpr(s.condition, b, base);
    if c.None? || base + 1 > LAST_REGISTER then None else
    var start := at + ExprLen(s.condition) + 3;
    var yes := LowerStmt(s.yes, start, c.value.after, base + 1, loop, Some(base), mode);
    if yes.None? then None else
    var other := start + StmtLen(s.yes, true) + (if Abrupt(s.yes) then 0 else 1) + 2;
    var no := if s.no.None? then Some(LoweredStmt([], FlowValue(TUndefined), c.value.after))
      else LowerStmt(s.no.value, other, c.value.after, base + 1, loop, Some(base), mode);
    if no.None? then None else
    var after := Join(yes.value, no.value);
    if after.None? then None else
    Some(LoweredStmt(IfCode(c.value.code, BranchCode(base, yes.value.code), Abrupt(s.yes),
        BranchCode(base, no.value.code)), JoinFlow(yes.value.flow, no.value.flow), after.value))
  }

  ghost function LowerList(body: seq<Stmt>, at: nat, b: Bindings, base: nat, loop: Option<Loop>, result: nat,
      mode: Head)
    : (r: Option<LoweredStmt>)
    ensures r.Some? ==> |r.value.code| == ListLen(body)
    ensures r.Some? ==> (r.value.flow.FlowAbrupt? <==> ListAbrupt(body))
    ensures r.Some? && !ListAbrupt(body) ==> (r.value.flow.FlowValue? <==> ListHasValue(body))
    decreases body, 1
  {
    if body == [] then Some(LoweredStmt([], FlowEmpty, b))
    else
      var first := LowerStmt(body[0], at, b, base, loop, Some(result), mode);
      if first.None? || first.value.flow.FlowAbrupt? then first
      else
        var keep := KeepCode(result, !first.value.flow.FlowValue?);
        var rest := LowerList(body[1..], at + |first.value.code| + |keep|, first.value.after, base, loop, result, mode);
        if rest.None? then None else
        Some(LoweredStmt(first.value.code + (keep + rest.value.code),
          if rest.value.flow.FlowEmpty? then first.value.flow else rest.value.flow, rest.value.after))
  }

  /** The first attempt, or the second when the first is refused and was not the second already. */
  ghost function LowerLoop(s: Stmt, at: nat, b: Bindings, base: nat, mode: Head): (r: Option<LoweredStmt>)
    requires s.While? || s.DoWhile?
    ensures r.Some? ==> |r.value.code| == StmtLen(s, false) && r.value.flow.FlowValue?
    decreases s, 1
  {
    var first := LowerLoopOnce(s, at, b, base, mode);
    if first.Some? || mode.Widened? then first else LowerLoopOnce(s, at, b, base, Widened)
  }

  ghost function LowerLoopOnce(s: Stmt, at: nat, b: Bindings, base: nat, mode: Head): (r: Option<LoweredStmt>)
    requires s.While? || s.DoWhile?
    ensures r.Some? ==> |r.value.code| == StmtLen(s, false) && r.value.flow.FlowValue?
    decreases s, 0
  {
    hide LowerExpr, WhileCode, DoWhileCode, Merge, MergeBindings, FixedPoint;
    if base + 1 > LAST_REGISTER then None else
    var head := FixedPoint(s.body, b, mode.Widened?);
    var c := LowerExpr(s.condition, head, base + 1);
    if c.None? || c.value.after != head then None else
    var body := LowerStmt(s.body, BodyAt(s, at), head, base + 1, Some(LoopOf(s, at, base, head)), None, mode);
    if body.None? || (!body.value.flow.FlowAbrupt? && !Fits(body.value.after, head)) then None else
    Some(LoweredStmt(LoopCode(s, base, c.value.code, body.value.code), FlowValue(LoopType(s, body.value.flow)), head))
  }

  function LoopCode(s: Stmt, result: nat, condition: seq<Instr>, body: seq<Instr>): (code: seq<Instr>)
    requires s.While? || s.DoWhile?
    ensures |code| == |condition| + |body| + (if Abrupt(s.body) then 0 else 1) + (if s.While? then 6 else 5)
  {
    if s.While? then WhileCode(result, condition, body, Abrupt(s.body))
    else DoWhileCode(result, body, Abrupt(s.body), condition)
  }

  /** The type of a loop's value, as the lowering tracks it. */
  function LoopType(s: Stmt, flow: Flow): (ty: RegType) {
    if !flow.FlowValue? then TUndefined else if s.While? then Merge(TUndefined, flow.ty) else flow.ty
  }

  /** Where the body of a loop that starts at `at` starts. */
  function BodyAt(s: Stmt, at: nat): (n: nat)
    requires s.While? || s.DoWhile?
  {
    if s.While? then at + 2 + ExprLen(s.condition) + 2 else at + 3
  }

  /** Where `break` and `continue` go in a loop that starts at `at`. */
  function LoopOf(s: Stmt, at: nat, result: nat, head: Bindings): (l: Loop)
    requires s.While? || s.DoWhile?
  {
    var end := BodyAt(s, at) + StmtLen(s.body, false) + (if Abrupt(s.body) then 0 else 1);
    if s.While? then Loop(result, head, end + 1, at + 2) else Loop(result, head, end + ExprLen(s.condition) + 1, end)
  }
}
