/** The register lowering: it grows its code, tracks the types of its bindings, and hands out registers as a stack. */
module RegisterLowering {

  import opened Wrappers
  import opened Source
  import opened CodeLayout
  import opened RegisterTypes
  import opened TypeInference
  import opened RegisterMachine
  import opened ExpressionLowering
  import opened StatementLowering
  import opened OpenJumps

  /** A loop being lowered: its open jumps, where its value is kept, and its bindings at its head. */
  datatype Frame = Frame(breaks: seq<nat>, continues: seq<nat>, result: nat, head: Bindings, depth: nat)

  class Lowerer {

    var code: seq<Instr>
    var bindings: Bindings
    var next: nat
    var loops: seq<Frame>
    var completions: seq<nat>
    var mode: Head

    ghost predicate Valid()
      reads this
    {
      next <= LAST_REGISTER
    }

    constructor (b: Bindings, base: nat)
      requires base <= LAST_REGISTER
      ensures Valid() && code == [] && bindings == b && next == base && loops == [] && completions == []
          && mode == Declared
    {
      code, bindings, next, loops, completions, mode := [], b, base, [], [], Declared;
    }

    method Emit(i: Instr) returns (at: nat)
      modifies this`code
      ensures at == |old(code)| && code == old(code) + [i]
    {
      at := |code|;
      code := code + [i];
    }

    method Allocate() returns (r: Option<nat>)
      requires Valid()
      modifies this`next
      ensures Valid()
      ensures old(next) + 1 <= LAST_REGISTER ==> r == Some(old(next)) && next == old(next) + 1
      ensures old(next) + 1 > LAST_REGISTER ==> r == None && next == old(next)
    {
      if next + 1 > LAST_REGISTER {
        return None;
      }
      r := Some(next);
      next := next + 1;
    }

    method Release(register: nat) returns (r: Option<()>)
      requires Valid()
      modifies this`next
      ensures Valid()
      ensures old(next) == 0 ==> r == None && next == 0
      ensures old(next) > 0 ==> next == old(next) - 1 && r == if register == next then Some(()) else None
    {
      if next == 0 {
        return None;
      }
      next := next - 1;
      return if register == next then Some(()) else None;
    }

    method PatchJump(at: nat, target: nat) returns (r: Option<()>)
      modifies this`code
      ensures at < |old(code)| && IsJump(old(code)[at]) ==>
                r == Some(()) && code == old(code)[at := Aimed(old(code)[at], at, target)]
      ensures at >= |old(code)| || !IsJump(old(code)[at]) ==> r == None && code == old(code)
    {
      if at < |code| && IsJump(code[at]) {
        code := code[at := Aimed(code[at], at, target)];
        return Some(());
      }
      return None;
    }

    /** Patches a jump that has been emitted, which does not fail. */
    method Aim(at: nat, target: nat, ghost before: seq<Instr>, ghost i: Instr, ghost behind: seq<Instr>)
      requires at == |before| && IsJump(i) && code == before + [i] + behind
      modifies this`code
      ensures code == before + [Aimed(i, at, target)] + behind
    {
      var _ := PatchJump(at, target);
    }

    // ----- Expressions -----

    /** What lowering an expression did: on success the code, the type and the bindings it is to have, and
        nothing else. */
    twostate predicate Did(new r: Option<Lowered>, new ty: Option<RegType>)
      reads this
    {
      && Valid() && old(code) <= code
      && loops == old(loops) && completions == old(completions) && mode == old(mode)
      && (r.None? <==> ty.None?)
      && (r.Some? ==>
            && ty == Some(r.value.ty) && code == old(code) + r.value.code && bindings == r.value.after
            && next == old(next))
    }

    method Lower(e: Expr) returns (ty: Option<RegType>)
      requires Valid()
      modifies this
      ensures Did(LowerExpr(e, old(bindings), old(next)), ty)
      decreases e, 1
    {
      match e
      case Literal(value) =>
        var _ := Emit(Lda(value));
        return Some(TypeOf(value));
      case Name(name) =>
        if name !in bindings || bindings[name].ty.None? {
          return None;
        }
        var _ := Emit(Ldar(bindings[name].register));
        return bindings[name].ty;
      case Sequence(_, _) =>
        ty := LowerSequence(e);
      case Conditional(_, _, _) =>
        ty := LowerConditional(e);
      case BinaryExpr(op, _, _) =>
        if IsLogical(op) {
          ty := LowerShortCircuit(e);
        } else {
          ty := LowerBinary(e);
        }
      case Assign(_, operator, _) =>
        if operator.None? {
          ty := LowerAssignment(e);
        } else {
          ty := LowerCompound(e);
        }
    }

    method LowerSequence(e: Expr) returns (ty: Option<RegType>)
      requires Valid() && e.Sequence?
      modifies this
      ensures Did(LowerExpr(e, old(bindings), old(next)), ty)
      decreases e, 0
    {
      hide LowerExpr;
      SequenceShape(e, bindings, next);
      var _ :- Lower(e.left);
      ty := Lower(e.right);
    }

    /** Patches the two jumps of a choice. */
    method CloseChoice(branch: nat, jump: nat, noStart: nat, end: nat, ghost before: seq<Instr>,
        ghost yes: seq<Instr>, ghost no: seq<Instr>)
      requires branch == |before| && jump == branch + 1 + |yes| && noStart == jump + 1 && end == noStart + |no|
      requires code == before + [JumpIfFalse(0)] + yes + [Jump(0)] + no
      modifies this`code
      ensures code == before + [JumpIfFalse(|yes| + 1)] + yes + [Jump(|no|)] + no
    {
      Regroup4(before + [JumpIfFalse(0)], yes, [Jump(0)], no);
      Aim(branch, noStart, before, JumpIfFalse(0), yes + ([Jump(0)] + no));
      ghost var head := before + [JumpIfFalse(|yes| + 1)];
      Regroup4(head, yes, [Jump(0)], no);
      Aim(jump, end, head + yes, Jump(0), no);
    }

    method LowerConditional(e: Expr) returns (ty: Option<RegType>)
      requires Valid() && e.Conditional?
      modifies this
      ensures Did(LowerExpr(e, old(bindings), old(next)), ty)
      decreases e, 0
    {
      hide LowerExpr, Merge, ChoiceCode;
      ConditionalShape(e, bindings, next);
      var _ :- Lower(e.condition);
      ghost var before := code;
      var branch := Emit(JumpIfFalse(0));
      var bindingsBefore := bindings;
      var yes :- Lower(e.yes);
      ghost var yesCode := code[branch + 1..];
      var bindingsAfterYes := bindings;
      var jump := Emit(Jump(0));
      var noStart := |code|;
      bindings := bindingsBefore;
      var no :- Lower(e.no);
      if bindings != bindingsAfterYes {
        return None;
      }
      ghost var noCode := code[noStart..];
      CloseChoice(branch, jump, noStart, |code|, before, yesCode, noCode);
      ChoiceLaid(old(code), before[|old(code)|..], yesCode, noCode);
      return Some(Merge(yes, no));
    }

    method LowerShortCircuit(e: Expr) returns (ty: Option<RegType>)
      requires Valid() && e.BinaryExpr? && IsLogical(e.op)
      modifies this
      ensures Did(LowerExpr(e, old(bindings), old(next)), ty)
      decreases e, 0
    {
      hide LowerExpr, Merge, MergeBindings;
      LogicalShape(e, bindings, next);
      ghost var l := LowerExpr(e.left, bindings, next);
      var left :- Lower(e.left);
      var right :- SkipRight(e.op, e.right);
      LogicalLaid(old(code), e.op, l.value.code, LowerExpr(e.right, l.value.after, next).value.code);
      return Some(Merge(left, right));
    }

    /** The right operand, behind a jump that skips it; the bindings are those of either way. */
    method SkipRight(op: Binary, right: Expr) returns (ty: Option<RegType>)
      requires Valid()
      modifies this
      ensures Valid() && old(code) <= code
      ensures loops == old(loops) && completions == old(completions) && mode == old(mode)
      ensures var l := LowerExpr(right, old(bindings), old(next));
              && (ty.None? <==> l.None? || MergeBindings(old(bindings), l.value.after).None?)
              && (ty.Some? ==>
                    && ty.value == l.value.ty && next == old(next)
                    && bindings == MergeBindings(old(bindings), l.value.after).value
                    && code == old(code) + [ShortCircuit(op, |l.value.code|)] + l.value.code)
      decreases right, 4
    {
      hide LowerExpr, MergeBindings;
      ghost var before := code;
      var branch := Emit(ShortCircuit(op, 0));
      var bindingsAfterLeft := bindings;
      var r :- Lower(right);
      var merged :- MergeBindings(bindingsAfterLeft, bindings);
      bindings := merged;
      Aim(branch, |code|, before, ShortCircuit(op, 0), code[branch + 1..]);
      return Some(r);
    }

    /** Keeps the left operand, lowers the right one, and leaves both in registers and the left one at hand. */
    method Operands(right: Expr) returns (r: Option<RegType>)
      requires Valid()
      modifies this
      ensures Valid() && old(code) <= code
      ensures loops == old(loops) && completions == old(completions) && mode == old(mode)
      ensures var base, l := old(next), LowerExpr(right, old(bindings), old(next) + 1);
              && (r.None? <==> base + 2 > LAST_REGISTER || l.None?)
              && (r.Some? ==>
                    && r.value == l.value.ty && bindings == l.value.after && next == base + 2
                    && code == old(code) + [Star(base)] + l.value.code + [Star(base + 1)] + [Ldar(base)])
      decreases right, 2
    {
      hide LowerExpr;
      var leftRegister :- Allocate();
      var _ := Emit(Star(leftRegister));
      var ty :- Lower(right);
      var rightRegister :- Allocate();
      var _ := Emit(Star(rightRegister));
      var _ := Emit(Ldar(leftRegister));
      return Some(ty);
    }

    /** Ends a binary operation and gives its registers back. */
    method Combine(last: seq<Instr>, base: nat)
      requires Valid() && next == base + 2
      modifies this`code, this`next
      ensures Valid() && code == old(code) + last && next == base
    {
      code := code + last;
      var _ := Release(base + 1);
      var _ := Release(base);
    }

    method LowerBinary(e: Expr) returns (ty: Option<RegType>)
      requires Valid() && e.BinaryExpr? && !IsLogical(e.op)
      modifies this
      ensures Did(LowerExpr(e, old(bindings), old(next)), ty)
      decreases e, 0
    {
      hide LowerExpr, Select, BinaryCode;
      BinaryShape(e, bindings, next);
      var base := next;
      var left :- Lower(e.left);
      ghost var leftCode, b := code[|old(code)|..], bindings;
      var right :- Operands(e.right);
      var last :- Select(e.op, left, right, base, base + 1);
      Combine(last.code, base);
      BinaryLaid(old(code), base, leftCode, LowerExpr(e.right, b, base + 1).value.code, last.code);
      return Some(last.ty);
    }

    method LowerAssignment(e: Expr) returns (ty: Option<RegType>)
      requires Valid() && e.Assign? && e.operator.None?
      modifies this
      ensures Did(LowerExpr(e, old(bindings), old(next)), ty)
      decreases e, 0
    {
      hide LowerExpr;
      AssignShape(e, bindings, next);
      if !Assignable(bindings, e.name) {
        return None;
      }
      var binding := bindings[e.name];
      var result :- Lower(e.right);
      ghost var rightCode := code[|old(code)|..];
      var _ := Emit(Star(binding.register));
      if e.name !in bindings {
        return None;
      }
      bindings := Retype(bindings, e.name, result);
      return Some(result);
    }

    method LowerCompound(e: Expr) returns (ty: Option<RegType>)
      requires Valid() && e.Assign? && e.operator.Some?
      modifies this
      ensures Did(LowerExpr(e, old(bindings), old(next)), ty)
      decreases e, 0
    {
      hide LowerExpr, SelectCompound, CompoundCode;
      CompoundShape(e, bindings, next);
      if !Assignable(bindings, e.name) {
        return None;
      }
      var base, binding := next, bindings[e.name];
      var _ := Emit(Ldar(binding.register));
      var right :- Operands(e.right);
      var last :- SelectCompound(e.operator.value, binding.ty.value, right, base, base + 1);
      Combine(last.code, base);
      var _ := Emit(Star(binding.register));
      if e.name !in bindings {
        return None;
      }
      bindings := Retype(bindings, e.name, last.ty);
      CompoundLaid(old(code), binding.register, base, LowerExpr(e.right, old(bindings), base + 1).value.code,
          last.code);
      return Some(last.ty);
    }

    // ----- Statements -----

    /** The loop a statement stands in is the innermost one being lowered. */
    ghost predicate Around(loop: Option<Loop>)
      reads this
    {
      && (loop.None? <==> loops == [])
      && (loop.Some? ==>
            var frame := loops[|loops| - 1];
            frame.result == loop.value.result && frame.head == loop.value.head && frame.depth <= |completions|)
    }

    /** Where the value so far is kept by the blocks and branches inside the innermost loop. */
    function Inner(): (completion: Option<nat>)
      reads this
    {
      var depth := if loops == [] then 0 else loops[|loops| - 1].depth;
      if |completions| > depth then Some(completions[|completions| - 1]) else None
    }

    /** What lowering a statement leaves alone even when it refuses: the code before, and the loops and
        completions around. */
    twostate predicate Outside()
      reads this
    {
      && Valid() && old(code) <= code && mode == old(mode) && old(completions) <= completions
      && |old(loops)| <= |loops| && (old(loops) != [] ==> loops[..|old(loops)| - 1] == old(loops)[..|old(loops)| - 1])
    }

    /** What lowering a statement did: the code it is to have but for the jumps noted in the loop around it. */
    twostate predicate Made(new r: Option<LoweredStmt>, new flow: Option<Flow>, new loop: Option<Loop>,
        new breaks: seq<nat>, new continues: seq<nat>)
      reads this
    {
      && Outside() && (r.None? <==> flow.None?)
      && (r.Some? ==>
            && flow == Some(r.value.flow) && bindings == r.value.after && next == old(next)
            && completions == old(completions)
            && loops == Noted(old(loops), breaks, continues) && (loop.None? ==> breaks == [] && continues == [])
            && Opened(code[|old(code)|..], r.value.code, |old(code)|, breaks, continues, Brk(loop), Cont(loop)))
    }

    /** The value so far goes where the loop keeps it, and a jump out of the round is left open. */
    method EmitLeave(result: nat) returns (jump: nat)
      requires loops != [] && loops[|loops| - 1].depth <= |completions|
      modifies this`code
      ensures code == old(code) + OpenLeave(old(Inner()), result) && jump == |code| - 1
    {
      if |completions| > loops[|loops| - 1].depth {
        var _ := Emit(Ldar(completions[|completions| - 1]));
      }
      var _ := Emit(Star(result));
      jump := Emit(Jump(0));
    }

    method LowerLoopJump(isBreak: bool, ghost loop: Option<Loop>)
      returns (flow: Option<Flow>, ghost breaks: seq<nat>, ghost continues: seq<nat>)
      requires Valid() && Around(loop)
      modifies this
      ensures var s := if isBreak then Break else Continue;
              Made(LowerStmt(s, |old(code)|, old(bindings), old(next), loop, old(Inner()), old(mode)), flow, loop,
                breaks, continues)
    {
      hide Opened, LowerStmt, Fits, LeaveCode, OpenLeave;
      JumpShape(isBreak, |code|, bindings, next, loop, Inner(), mode);
      breaks, continues := [], [];
      if loops == [] {
        return None, [], [];
      }
      var last := |loops| - 1;
      var frame := loops[last];
      if !Fits(bindings, frame.head) {
        return None, [], [];
      }
      var jump := EmitLeave(frame.result);
      LeaveOpened(|old(code)|, old(Inner()), frame.result, isBreak, loop.value);
      assert frame.breaks + [] == frame.breaks && frame.continues + [] == frame.continues;
      if isBreak {
        loops := loops[..last] + [frame.(breaks := frame.breaks + [jump])];
        breaks := [jump];
      } else {
        loops := loops[..last] + [frame.(continues := frame.continues + [jump])];
        continues := [jump];
      }
      flow := Some(FlowAbrupt);
    }

    method LowerStatement(s: Stmt, ghost loop: Option<Loop>)
      returns (flow: Option<Flow>, ghost breaks: seq<nat>, ghost continues: seq<nat>)
      requires Valid() && Around(loop)
      modifies this
      ensures Made(LowerStmt(s, |old(code)|, old(bindings), old(next), loop, old(Inner()), old(mode)), flow, loop,
          breaks, continues)
      decreases s, 4
    {
      hide LowerExpr, LowerIf, LowerList, LowerLoop, Opened, Noted, BlockCode;
      breaks, continues := [], [];
      match s
      case ExprStmt(e) =>
        NotedNone(loops);
        var ty := Lower(e);
        OpenedSame(code[|old(code)|..], |old(code)|, Brk(loop), Cont(loop));
        flow := if ty.None? then None else Some(FlowValue(ty.value));
      case If(_, _, _) =>
        flow, breaks, continues := LowerIfStatement(s, loop);
      case Block(body) =>
        flow, breaks, continues := LowerBlock(body, loop);
      case While(_, _) =>
        flow := LowerLoopFlow(s, loop);
      case DoWhile(_, _) =>
        flow := LowerLoopFlow(s, loop);
      case Break =>
        flow, breaks, continues := LowerLoopJump(true, loop);
      case Continue =>
        flow, breaks, continues := LowerLoopJump(false, loop);
      case Empty =>
        NotedNone(loops);
        OpenedSame([], |code|, Brk(loop), Cont(loop));
        assert code[|code|..] == [];
        flow := Some(FlowEmpty);
    }

    method LowerLoopFlow(s: Stmt, ghost loop: Option<Loop>) returns (flow: Option<Flow>)
      requires Valid() && Around(loop) && (s.While? || s.DoWhile?)
      modifies this
      ensures Made(LowerLoop(s, |old(code)|, old(bindings), old(next), old(mode)), flow, loop, [], [])
      decreases s, 3
    {
      hide LowerLoop, Opened, Noted;
      NotedNone(loops);
      var ty := LowerLoopStatement(s);
      OpenedSame(code[|old(code)|..], |old(code)|, Brk(loop), Cont(loop));
      flow := if ty.None? then None else Some(FlowValue(ty.value));
    }

    /** Opens `BranchCode`. */
    method EnterArm(completion: nat)
      modifies this`code, this`completions
      ensures code == old(code) + [Lda(Undefined)] + [Star(completion)]
          && completions == old(completions) + [completion]
    {
      var _ := Emit(Lda(Undefined));
      var _ := Emit(Star(completion));
      completions := completions + [completion];
    }

    method LowerNoArm(completion: nat, ghost loop: Option<Loop>) returns (flow: Flow)
      requires Valid() && Around(loop)
      modifies this`code, this`completions
      ensures Made(ArmLowered(None, |old(code)|, old(bindings), old(next), loop, completion, old(mode)), Some(flow),
          loop, [], [])
    {
      hide Opened, Noted, BranchCode;
      EnterArm(completion);
      NotedNone(loops);
      OpenedSame([], |code|, Brk(loop), Cont(loop));
      ArmOpened(old(code), completion, [], [], [], [], loop);
      assert code + [] == code;
      completions := completions[..|completions| - 1];
      flow := FlowValue(TUndefined);
    }

    method LowerArm(s: Stmt, completion: nat, ghost loop: Option<Loop>)
      returns (flow: Option<Flow>, ghost breaks: seq<nat>, ghost continues: seq<nat>)
      requires Valid() && Around(loop)
      modifies this
      ensures Made(ArmLowered(Some(s), |old(code)|, old(bindings), old(next), loop, completion, old(mode)), flow,
          loop, breaks, continues)
      decreases s, 5
    {
      hide LowerStmt, Opened, Noted, BranchCode;
      EnterArm(completion);
      ghost var start := |code|;
      flow, breaks, continues := LowerStatement(s, loop);
      if flow.None? {
        return;
      }
      ghost var lowered := LowerStmt(s, start, old(bindings), old(next), loop, Some(completion), old(mode)).value;
      ArmOpened(old(code), completion, code[start..], lowered.code, breaks, continues, loop);
      assert code == code[..start] + code[start..];
      assert code[..start] == old(code) + [Lda(Undefined)] + [Star(completion)];
      completions := completions[..|completions| - 1];
    }

    /** Patches the jumps of an `if`; a first arm that never ends has none over the other. */
    method CloseIf(branch: nat, abrupt: bool, ghost before: seq<Instr>, ghost yes: seq<Instr>, ghost no: seq<Instr>,
        noStart: nat)
      requires branch == |before| && noStart == branch + 1 + |yes| + (if abrupt then 0 else 1)
      requires code == before + [JumpIfFalse(0)] + yes + (if abrupt then [] else [Jump(0)]) + no
      modifies this`code
      ensures code == before + [JumpIfFalse(noStart - (branch + 1))] + yes + (if abrupt then [] else [Jump(|no|)]) + no
    {
      if abrupt {
        assert before + [JumpIfFalse(0)] + yes + [] == before + [JumpIfFalse(0)] + yes;
        Regroup3(before + [JumpIfFalse(0)], yes, no);
        Aim(branch, noStart, before, JumpIfFalse(0), yes + no);
        ghost var head := before + [JumpIfFalse(noStart - (branch + 1))];
        Regroup3(head, yes, no);
        assert head + yes + [] == head + yes;
      } else {
        CloseChoice(branch, noStart - 1, noStart, |code|, before, yes, no);
      }
    }

    /** The condition of an `if` and its first arm, up to the jump over the other. */
    method LowerThen(s: Stmt, ghost loop: Option<Loop>)
      returns (flow: Option<Flow>, branch: nat, afterYes: Bindings, ghost breaks: seq<nat>, ghost continues: seq<nat>,
               ghost part: seq<Instr>)
      requires Valid() && Around(loop) && s.If?
      modifies this
      ensures Outside()
      ensures var yes := ThenLowered(s, |old(code)|, old(bindings), old(next), loop, old(mode));
              && (flow.None? <==> yes.None?)
              && (flow.Some? ==>
                    var test := LowerExpr(s.condition, old(bindings), old(next)).value;
                    && flow == Some(yes.value.flow) && afterYes == yes.value.after
                    && branch == |old(code)| + |test.code|
                    && bindings == test.after && next == old(next) + 1 && completions == old(completions)
                    && loops == Noted(old(loops), breaks, continues) && (loop.None? ==> breaks == [] && continues == [])
                    && ThenLaid(old(code), code, test.code, yes.value, breaks, continues, loop, part))
      decreases s, 2
    {
      hide LowerExpr, ArmLowered, Opened, Noted;
      branch, afterYes, breaks, continues, part := 0, bindings, [], [], [];
      var tested := Lower(s.condition);
      if tested.None? {
        return None, 0, bindings, [], [], [];
      }
      ghost var before := code;
      branch := Emit(JumpIfFalse(0));
      var bindingsBefore := bindings;
      var completion := Allocate();
      if completion.None? {
        return None, 0, bindings, [], [], [];
      }
      flow, breaks, continues := LowerArm(s.yes, completion.value, loop);
      if flow.None? {
        return None, 0, bindings, [], [], [];
      }
      NotedLast(old(loops), breaks, continues);
      part := code[branch + 1..];
      assert code == before + [JumpIfFalse(0)] + part;
      afterYes := bindings;
      if !flow.value.FlowAbrupt? {
        var _ := Emit(Jump(0));
      } else {
        assert code + [] == code;
      }
      bindings := bindingsBefore;
    }

    /** The other arm of an `if`, and its jumps. */
    method LowerElse(arm: Option<Stmt>, completion: nat, branch: nat, abrupt: bool, ghost loop: Option<Loop>,
        ghost front: seq<Instr>, ghost test: seq<Instr>, ghost first: LoweredStmt, ghost b1: seq<nat>,
        ghost c1: seq<nat>, ghost part: seq<Instr>)
      returns (flow: Option<Flow>, ghost breaks: seq<nat>, ghost continues: seq<nat>)
      requires Valid() && Around(loop) && next == completion + 1 && branch == |front| + |test|
          && abrupt == first.flow.FlowAbrupt?
      requires ThenLaid(front, code, test, first, b1, c1, loop, part)
      modifies this
      ensures Valid() && front <= code && mode == old(mode) && old(completions) <= completions
      ensures |old(loops)| <= |loops| && (old(loops) != [] ==>
          loops[..|old(loops)| - 1] == old(loops)[..|old(loops)| - 1])
      ensures var no := ArmLowered(arm, |old(code)|, old(bindings), old(next), loop, completion, old(mode));
              && (flow.None? <==> no.None?)
              && (flow.Some? ==>
                    && flow == Some(no.value.flow) && bindings == no.value.after && next == completion
                    && completions == old(completions)
                    && loops == Noted(old(loops), breaks, continues) && (loop.None? ==> breaks == [] && continues == [])
                    && Opened(code[|front|..], IfCode(test, first.code, abrupt, no.value.code), |front|, b1 + breaks,
                        c1 + continues,
                              Brk(loop), Cont(loop)))
      decreases arm, 6
    {
      hide ArmLowered, Opened, Noted, IfCode;
      OpenedSizes(part, first.code, branch + 1, b1, c1, Brk(loop), Cont(loop));
      var noStart := |code|;
      ghost var no := ArmLowered(arm, noStart, bindings, next, loop, completion, mode);
      assert front <= code;
      if arm.Some? {
        flow, breaks, continues := LowerArm(arm.value, completion, loop);
        if flow.None? {
          return None, [], [];
        }
      } else {
        var f := LowerNoArm(completion, loop);
        flow, breaks, continues := Some(f), [], [];
      }
      ghost var noPart := code[noStart..];
      var _ := Release(completion);
      CloseIf(branch, abrupt, front + test, part, noPart, noStart);
      IfOpened(front, test, part, first, noPart, no.value.code, b1, c1, breaks, continues, loop);
    }

    method LowerIfStatement(s: Stmt, ghost loop: Option<Loop>)
      returns (flow: Option<Flow>, ghost breaks: seq<nat>, ghost continues: seq<nat>)
      requires Valid() && Around(loop) && s.If?
      modifies this
      ensures Made(LowerIf(s, |old(code)|, old(bindings), old(next), loop, old(mode)), flow, loop, breaks, continues)
      decreases s, 3
    {
      hide LowerExpr, LowerIf, ArmLowered, ThenLowered, Opened, Noted, IfCode, MergeBindings, JoinFlow;
      IfShape(s, |code|, bindings, next, loop, mode);
      ghost var b1, c1, b2, c2;
      ghost var part;
      var completion := next;
      var yes, no, branch, afterYes;
      yes, branch, afterYes, b1, c1, part := LowerThen(s, loop);
      if yes.None? {
        return None, [], [];
      }
      NotedLast(old(loops), b1, c1);
      ghost var test := LowerExpr(s.condition, old(bindings), old(next)).value.code;
      ghost var first := ThenLowered(s, |old(code)|, old(bindings), old(next), loop, old(mode)).value;
      OpenedSizes(part, first.code, branch + 1, b1, c1, Brk(loop), Cont(loop));
      no, b2, c2 := LowerElse(s.no, completion, branch, yes.value.FlowAbrupt?, loop, old(code), test, first, b1, c1,
          part);
      if no.None? {
        return None, [], [];
      }
      NotedAgain(old(loops), b1, c1, b2, c2);
      NotedLast(old(loops), b1 + b2, c1 + c2);
      breaks, continues := b1 + b2, c1 + c2;
      if !yes.value.FlowAbrupt? {
        if no.value.FlowAbrupt? {
          bindings := afterYes;
        } else {
          var merged := MergeBindings(afterYes, bindings);
          if merged.None? {
            return None, [], [];
          }
          bindings := merged.value;
        }
      }
      flow := Some(JoinFlow(yes.value, no.value));
    }

    /** The statements of a block, each value of which is kept in a register. */
    method LowerStatements(body: seq<Stmt>, result: nat, ghost loop: Option<Loop>)
      returns (flow: Option<Flow>, ghost breaks: seq<nat>, ghost continues: seq<nat>)
      requires Valid() && Around(loop) && Inner() == Some(result)
      modifies this
      ensures Made(LowerList(body, |old(code)|, old(bindings), old(next), loop, result, old(mode)), flow, loop,
          breaks, continues)
      decreases body, 5
    {
      hide LowerStmt, LowerList, KeptStmt, Opened, Noted, Prepended;
      ghost var n, base, b := |code|, next, bindings;
      ghost var spec: seq<Instr> := [];
      breaks, continues := [], [];
      var soFar := FlowEmpty;
      ListStarts(body, n, b, base, loop, result, mode, loops);
      assert code[n..] == [];
      var i := 0;
      while i < |body|
        invariant 0 <= i <= |body|
        invariant Outside() && Around(loop) && completions == old(completions) && next == base
        invariant loops == Noted(old(loops), breaks, continues) && (loop.None? ==> breaks == [] && continues == [])
        invariant Opened(code[n..], spec, n, breaks, continues, Brk(loop), Cont(loop))
        invariant LowerList(body, n, b, base, loop, result, mode)
                  == Prepended(spec, soFar, LowerList(body[i..], |code|, bindings, base, loop, result, mode))
      {
        ghost var before := code;
        ghost var kept := KeptStmt(LowerStmt(body[i], |code|, bindings, base, loop, Some(result), mode), result);
        ListStep(body, i, |code|, bindings, base, loop, result, mode, spec, soFar);
        NotedLast(old(loops), breaks, continues);
        ghost var more, others;
        var f;
        f, more, others := LowerKept(body[i], result, loop);
        if f.None? {
          return None, [], [];
        }
        NotedAgain(old(loops), breaks, continues, more, others);
        NotedLast(old(loops), breaks + more, continues + others);
        OpenedSizes(code[|before|..], kept.value.code, |before|, more, others, Brk(loop), Cont(loop));
        ListOpened(before, n, spec, code, kept.value.code, breaks, continues, more, others, loop);
        breaks, continues := breaks + more, continues + others;
        spec := spec + kept.value.code;
        if f.value.FlowAbrupt? {
          return f, breaks, continues;
        }
        if f.value.FlowValue? {
          soFar := f.value;
        }
        i := i + 1;
      }
      ListEnds(body, |code|, bindings, base, loop, result, mode, spec, soFar);
      flow := Some(soFar);
    }

    /** A statement of a block, the value of which is kept. */
    method LowerKept(s: Stmt, result: nat, ghost loop: Option<Loop>)
      returns (flow: Option<Flow>, ghost breaks: seq<nat>, ghost continues: seq<nat>)
      requires Valid() && Around(loop) && Inner() == Some(result)
      modifies this
      ensures Made(KeptStmt(LowerStmt(s, |old(code)|, old(bindings), old(next), loop, Some(result), old(mode)), result),
          flow, loop, breaks, continues)
      decreases s, 5
    {
      hide LowerStmt, Opened, Noted;
      ghost var n := |code|;
      ghost var first := LowerStmt(s, n, bindings, next, loop, Some(result), mode);
      flow, breaks, continues := LowerStatement(s, loop);
      if flow.None? {
        return None, [], [];
      }
      if flow.value.FlowValue? {
        ghost var was := code;
        var _ := Emit(Star(result));
        KeptOpened(was, n, first.value.code, [Star(result)], breaks, continues, loop);
      } else {
        KeptOpened(code, n, first.value.code, [], breaks, continues, loop);
      }
    }

    method LowerBlock(body: seq<Stmt>, ghost loop: Option<Loop>)
      returns (flow: Option<Flow>, ghost breaks: seq<nat>, ghost continues: seq<nat>)
      requires Valid() && Around(loop)
      modifies this
      ensures Made(BlockLowered(body, |old(code)|, old(bindings), old(next), loop, old(mode)), flow, loop, breaks,
          continues)
      decreases body, 6
    {
      hide LowerList, Opened, Noted, BlockCode;
      breaks, continues := [], [];
      var result := Allocate();
      if result.None? {
        return None, [], [];
      }
      var _ := Emit(Star(result.value));
      completions := completions + [result.value];
      ghost var start := |code|;
      flow, breaks, continues := LowerStatements(body, result.value, loop);
      if flow.None? {
        return None, [], [];
      }
      completions := completions[..|completions| - 1];
      ghost var lowered := LowerList(body, start, old(bindings), old(next) + 1, loop, result.value, mode).value;
      BlockOpened(old(code), result.value, code, lowered, breaks, continues, loop);
      if !flow.value.FlowAbrupt? {
        var _ := Emit(Ldar(result.value));
      }
      var _ := Release(result.value);
    }

    /** What lowering a loop did; nothing outside it changes, and a refusal leaves what stood before it. */
    twostate predicate Looped(new r: Option<LoweredStmt>, new ty: Option<RegType>)
      reads this
    {
      && Valid() && old(code) <= code && mode == old(mode) && old(completions) <= completions && old(loops) <= loops
      && (r.None? <==> ty.None?)
      && (r.Some? ==>
            && r.value.flow.FlowValue? && ty == Some(r.value.flow.ty)
            && code == old(code) + r.value.code && bindings == r.value.after && next == old(next)
            && completions == old(completions) && loops == old(loops))
    }

    /** Patches jumps out of a loop. */
    method AimEach(places: seq<nat>, target: nat)
      requires forall p :: p in places ==> p < |code| && code[p].Jump?
      modifies this`code
      ensures Redirected(old(code), code, places, target)
    {
      for i := 0 to |places|
        invariant Redirected(old(code), code, places[..i], target)
      {
        assert places[i] in places;
        assert places[..i + 1] == places[..i] + [places[i]];
        var _ := PatchJump(places[i], target);
      }
      assert places[..|places|] == places;
    }

    /** The jumps a body left open now have targets. */
    method Close(breaks: seq<nat>, continues: seq<nat>, brk: nat, cont: nat, ghost front: seq<Instr>,
        ghost part: seq<Instr>, ghost body: seq<Instr>, ghost tail: seq<Instr>)
      requires Opened(part, body, |front|, breaks, continues, brk, cont) && code == front + (part + tail)
      modifies this`code
      ensures code == front + (body + tail)
    {
      hide Opened, Redirected;
      OpenPlaces(front, part, body, tail, breaks, continues, brk, cont);
      ghost var first := code;
      AimEach(breaks, brk);
      ghost var second := code;
      StillJumps(first, second, breaks, continues, brk);
      AimEach(continues, cont);
      OpenClosed(front, part, body, tail, breaks, continues, brk, cont, second, code);
    }

    /** The body of a loop, up to where its value is kept. */
    method LowerRound(s: Stmt, result: nat, head: Bindings, ghost loop: Loop)
      returns (flow: Option<Flow>, breaks: seq<nat>, continues: seq<nat>, ghost part: seq<Instr>)
      requires Valid() && loop.result == result && loop.head == head
      modifies this
      ensures Valid() && old(code) <= code && mode == old(mode) && old(completions) <= completions
          && old(loops) <= loops
      ensures var body := LowerStmt(s, |old(code)|, old(bindings), old(next), Some(loop), None, old(mode));
              && (flow.None? <==> body.None? || (!body.value.flow.FlowAbrupt? && !Fits(body.value.after, head)))
              && (flow.Some? ==>
                    && flow == Some(body.value.flow) && next == old(next) && completions == old(completions)
                    && loops == old(loops)
                    && code == old(code) + part + KeepCode(result, body.value.flow.FlowAbrupt?)
                    && Opened(part, body.value.code, |old(code)|, breaks, continues, loop.brk, loop.cont))
      decreases s, 5
    {
      hide LowerStmt, Opened, Noted, Fits;
      ghost var n, outer := |code|, loops;
      loops := loops + [Frame([], [], result, head, |completions|)];
      ghost var b, c;
      flow, b, c := LowerStatement(s, Some(loop));
      breaks, continues, part := [], [], [];
      if flow.None? {
        assert loops[..|outer|] == outer;
        return None, [], [], [];
      }
      NotedPushed(outer, b, c, result, head, |completions|);
      var frame := loops[|loops| - 1];
      loops := loops[..|loops| - 1];
      breaks, continues, part := frame.breaks, frame.continues, code[n..];
      assert code == old(code) + part;
      if !flow.value.FlowAbrupt? {
        if !Fits(bindings, head) {
          return None, [], [], [];
        }
        var _ := Emit(Star(result));
      } else {
        assert code + [] == code;
      }
    }

    /** The start of a loop: a register for its value, undefined in it, and the bindings its body can bring about. */
    method LowerHead(s: Stmt) returns (result: Option<nat>)
      requires Valid() && (s.While? || s.DoWhile?)
      modifies this
      ensures Valid() && old(code) <= code && mode == old(mode) && completions == old(completions)
          && loops == old(loops)
      ensures old(next) + 1 > LAST_REGISTER ==> result == None
      ensures old(next) + 1 <= LAST_REGISTER ==>
                && result == Some(old(next)) && next == old(next) + 1
                && code == old(code) + [Lda(Undefined)] + [Star(old(next))]
                && bindings == FixedPoint(s.body, old(bindings), mode.Widened?)
    {
      var _ := Emit(Lda(Undefined));
      result := Allocate();
      if result.Some? {
        var _ := Emit(Star(result.value));
        var head, _ := InferToFixedPoint(s.body, bindings, mode.Widened?);
        bindings := head;
      }
    }

    /** The condition of a loop, which may not change its bindings, and the open jump that tests it. */
    method LowerTest(condition: Expr, test: Instr) returns (jump: Option<nat>)
      requires Valid()
      modifies this
      ensures Valid() && old(code) <= code && mode == old(mode) && completions == old(completions)
          && loops == old(loops)
      ensures var c := LowerExpr(condition, old(bindings), old(next));
              && (jump.None? <==> c.None? || c.value.after != old(bindings))
              && (jump.Some? ==>
                    && bindings == old(bindings) && next == old(next)
                    && code == old(code) + c.value.code + [test] && jump.value == |code| - 1)
    {
      hide LowerExpr;
      var before := bindings;
      var _ :- Lower(condition);
      if bindings != before {
        return None;
      }
      var at := Emit(test);
      return Some(at);
    }

    method LowerWhile(s: Stmt) returns (ty: Option<RegType>)
      requires Valid() && s.While?
      modifies this
      ensures Looped(LowerLoopOnce(s, |old(code)|, old(bindings), old(next), old(mode)), ty)
      decreases s, 0
    {
      hide LowerExpr, LowerStmt, LowerLoopOnce, Opened, Fits, FixedPoint, WhileCode, KeepCode, Merge, StmtLen, BodyAt,
          LoopOf, ExprLen;
      WhileShape(s, |code|, bindings, next, mode);
      ghost var n, base := |code|, next;
      var result :- LowerHead(s);
      var atHead, head := bindings, |code|;
      var branch :- LowerTest(s.condition, JumpIfFalse(0));
      ghost var test := LowerExpr(s.condition, atHead, base + 1).value.code;
      var _ := Emit(Ldar(result));
      ghost var loop := LoopOf(s, n, result, atHead);
      LoopPlaces(s, n, result, atHead);
      ghost var part;
      var flow, breaks, continues;
      flow, breaks, continues, part := LowerRound(s.body, result, atHead, loop);
      if flow.None? {
        return None;
      }
      ghost var body := LowerStmt(s.body, BodyAt(s, n), atHead, base + 1, Some(loop), None, mode).value;
      OpenedSizes(part, body.code, BodyAt(s, n), breaks, continues, loop.brk, loop.cont);
      FinishWhile(branch, head, result, breaks, continues, flow.value.FlowAbrupt?, old(code), test, part, body.code,
          loop);
      bindings := atHead;
      var _ := Release(result);
      return Some(if flow.value.FlowValue? then Merge(TUndefined, flow.value.ty) else TUndefined);
    }

    /** The jump back of a `while`, its value at its end, and all its jumps. */
    method CloseWhile(branch: nat, head: nat, result: nat, breaks: seq<nat>, continues: seq<nat>,
        ghost before: seq<Instr>, ghost part: seq<Instr>, ghost body: seq<Instr>, ghost keep: seq<Instr>,
        ghost loop: Loop)
      requires branch == |before| && head <= branch
      requires code == before + [JumpIfFalse(0)] + [Ldar(result)] + part + keep
      requires Opened(part, body, branch + 2, breaks, continues, loop.brk, loop.cont) && loop.brk == |code| + 1
          && loop.cont == head
      modifies this`code
      ensures code == before + [JumpIfFalse(|part| + |keep| + 2)] + [Ldar(result)]
                      + (body + (keep + ([Jump(head - (branch + 2 + |part| + |keep| + 1))] + [Ldar(result)])))
    {
      hide Opened;
      var backEdge := Emit(Jump(0));
      var done := |code|;
      var _ := Emit(Ldar(result));
      ghost var value := [Ldar(result)];
      ghost var open := before + [JumpIfFalse(0)];
      Regroup6(open, value, part, keep, [Jump(0)], value);
      Aim(branch, done, before, JumpIfFalse(0), value + (part + (keep + ([Jump(0)] + value))));
      ghost var tested := before + [JumpIfFalse(|part| + |keep| + 2)];
      Regroup6(tested, value, part, keep, [Jump(0)], value);
      Aim(backEdge, head, tested + value + part + keep, Jump(0), value);
      ghost var jump := [Jump(head - (backEdge + 1))];
      Regroup6(tested, value, part, keep, jump, value);
      Regroup3(tested, value, part + (keep + (jump + value)));
      Close(breaks, continues, done, head, tested + value, part, body, keep + (jump + value));
    }

    /** A `while` with all its jumps closed. */
    method FinishWhile(branch: nat, head: nat, result: nat, breaks: seq<nat>, continues: seq<nat>, ghost abrupt: bool,
        ghost front: seq<Instr>, ghost test: seq<Instr>, ghost part: seq<Instr>, ghost body: seq<Instr>,
        ghost loop: Loop)
      requires head == |front| + 2 && branch == head + |test| && |part| == |body|
      requires code == front + [Lda(Undefined)] + [Star(result)] + test + [JumpIfFalse(0)] + [Ldar(result)] + part
                       + KeepCode(result, abrupt)
      requires Opened(part, body, branch + 2, breaks, continues, loop.brk, loop.cont) && loop.brk == |code| + 1
          && loop.cont == head
      modifies this`code
      ensures code == front + WhileCode(result, test, body, abrupt)
    {
      hide Opened, KeepCode, WhileCode;
      CloseWhile(branch, head, result, breaks, continues, front + [Lda(Undefined)] + [Star(result)] + test, part, body,
        KeepCode(result, abrupt), loop);
      WhileLaid(front, result, test, body, abrupt);
    }

    /** The jumps of a body to a loop's condition now have their target; those out of the loop stay open. */
    method CloseContinues(ghost breaks: seq<nat>, continues: seq<nat>, ghost brk: nat, cont: nat,
        ghost front: seq<Instr>, ghost part: seq<Instr>, ghost body: seq<Instr>, ghost tail: seq<Instr>)
      returns (ghost half: seq<Instr>)
      requires Opened(part, body, |front|, breaks, continues, brk, cont) && code == front + (part + tail)
      modifies this`code
      ensures code == front + (half + tail) && Opened(half, body, |front|, breaks, [], brk, cont)
    {
      hide Opened, Redirected;
      OpenPlaces(front, part, body, tail, breaks, continues, brk, cont);
      ghost var first := code;
      AimEach(continues, cont);
      half := HalfClosed(front, part, body, tail, breaks, continues, brk, cont, code);
    }

    /** The end of a `do`-`while`: its condition and the jump back, its value, and the jumps out. */
    method CloseDoWhile(condition: Expr, head: nat, result: nat, breaks: seq<nat>, ghost front: seq<Instr>,
        ghost half: seq<Instr>, ghost body: seq<Instr>, ghost keep: seq<Instr>, ghost loop: Loop)
      returns (done: Option<()>)
      requires Valid() && code == front + (half + keep) && head <= |front|
      requires Opened(half, body, |front|, breaks, [], loop.brk, loop.cont)
      requires LowerExpr(condition, bindings, next).Some? ==>
                 loop.brk == |code| + |LowerExpr(condition, bindings, next).value.code| + 1
      modifies this
      ensures Valid() && front <= code && mode == old(mode) && completions == old(completions) && loops == old(loops)
      ensures var c := LowerExpr(condition, old(bindings), old(next));
              && (done.None? <==> c.None? || c.value.after != old(bindings))
              && (done.Some? ==>
                    && bindings == old(bindings) && next == old(next)
                    && code == front + (body + (keep + (c.value.code
                               + ([JumpIfTrue(head - (|old(code)| + |c.value.code| + 1))] + [Ldar(result)])))))
    {
      hide LowerExpr, Opened;
      ghost var c := LowerExpr(condition, bindings, next);
      var backEdge :- LowerTest(condition, JumpIfTrue(0));
      CloseBack(backEdge, head, result, breaks, front, half, body, keep, c.value.code, loop);
      return Some(());
    }

    /** The jump back of a `do`-`while`, its value, and the jumps out. */
    method CloseBack(backEdge: nat, head: nat, result: nat, breaks: seq<nat>, ghost front: seq<Instr>,
        ghost half: seq<Instr>, ghost body: seq<Instr>, ghost keep: seq<Instr>, ghost test: seq<Instr>,
        ghost loop: Loop)
      requires code == front + (half + keep) + test + [JumpIfTrue(0)] && backEdge == |code| - 1
      requires Opened(half, body, |front|, breaks, [], loop.brk, loop.cont) && loop.brk == |code|
      modifies this`code
      ensures code == front + (body + (keep + (test + ([JumpIfTrue(head - (backEdge + 1))] + [Ldar(result)]))))
    {
      hide Opened;
      ghost var before := front + (half + keep);
      var exit := |code|;
      var _ := Emit(Ldar(result));
      Aim(backEdge, head, before + test, JumpIfTrue(0), [Ldar(result)]);
      ghost var last := test + ([JumpIfTrue(head - (backEdge + 1))] + [Ldar(result)]);
      Regroup4(before, test, [JumpIfTrue(head - (backEdge + 1))], [Ldar(result)]);
      Regroup3(front, half + keep, last);
      Regroup3(half, keep, last);
      OpenPlaces(front, half, body, keep + last, breaks, [], loop.brk, loop.cont);
      AimEach(breaks, exit);
      OpenClosed(front, half, body, keep + last, breaks, [], loop.brk, loop.cont, code, code);
    }

    /** A round whose jumps to the next one go to its end. */
    method LowerDoRound(s: Stmt, result: nat, head: Bindings, ghost loop: Loop)
      returns (flow: Option<Flow>, breaks: seq<nat>, ghost half: seq<Instr>)
      requires Valid() && loop.result == result && loop.head == head
      requires loop.cont == |code| + StmtLen(s, false) + (if Abrupt(s) then 0 else 1)
      modifies this
      ensures Valid() && old(code) <= code && mode == old(mode) && old(completions) <= completions
          && old(loops) <= loops
      ensures var body := LowerStmt(s, |old(code)|, old(bindings), old(next), Some(loop), None, old(mode));
              && (flow.None? <==> body.None? || (!body.value.flow.FlowAbrupt? && !Fits(body.value.after, head)))
              && (flow.Some? ==>
                    && flow == Some(body.value.flow) && next == old(next) && completions == old(completions)
                    && loops == old(loops) && bindings == head
                    && code == old(code) + (half + KeepCode(result, body.value.flow.FlowAbrupt?))
                    && Opened(half, body.value.code, |old(code)|, breaks, [], loop.brk, loop.cont))
      decreases s, 6
    {
      hide LowerStmt, Opened, Fits, StmtLen, Abrupt;
      ghost var front := code;
      ghost var body := LowerStmt(s, |code|, bindings, next, Some(loop), None, mode);
      ghost var part;
      var continues;
      half := [];
      flow, breaks, continues, part := LowerRound(s, result, head, loop);
      if flow.None? {
        return None, [], [];
      }
      ghost var keep := KeepCode(result, flow.value.FlowAbrupt?);
      OpenedSizes(part, body.value.code, |front|, breaks, continues, loop.brk, loop.cont);
      Regroup3(front, part, keep);
      half := CloseContinues(breaks, continues, loop.brk, |code|, front, part, body.value.code, keep);
      bindings := head;
    }

    method LowerDoWhile(s: Stmt) returns (ty: Option<RegType>)
      requires Valid() && s.DoWhile?
      modifies this
      ensures Looped(LowerLoopOnce(s, |old(code)|, old(bindings), old(next), old(mode)), ty)
      decreases s, 0
    {
      hide LowerExpr, LowerStmt, LowerLoopOnce, Opened, Fits, FixedPoint, DoWhileCode, KeepCode, StmtLen, BodyAt,
          LoopOf, ExprLen;
      DoWhileShape(s, |code|, bindings, next, mode);
      ghost var n, base := |code|, next;
      var result :- LowerHead(s);
      var atHead, head := bindings, |code|;
      var _ := Emit(Ldar(result));
      ghost var front := code;
      ghost var loop := LoopOf(s, n, result, atHead);
      LoopPlaces(s, n, result, atHead);
      ghost var half;
      var flow, breaks;
      flow, breaks, half := LowerDoRound(s.body, result, atHead, loop);
      if flow.None? {
        return None;
      }
      ghost var body := LowerStmt(s.body, BodyAt(s, n), atHead, base + 1, Some(loop), None, mode).value;
      ghost var keep := KeepCode(result, flow.value.FlowAbrupt?);
      OpenedSizes(half, body.code, |front|, breaks, [], loop.brk, loop.cont);
      var _ :- CloseDoWhile(s.condition, head, result, breaks, front, half, body.code, keep, loop);
      DoWhileLaid(old(code), result, LowerExpr(s.condition, atHead, base + 1).value.code, body.code,
          flow.value.FlowAbrupt?);
      var _ := Release(result);
      return Some(if flow.value.FlowValue? then flow.value.ty else TUndefined);
    }

    method LowerLoopTry(s: Stmt) returns (ty: Option<RegType>)
      requires Valid() && (s.While? || s.DoWhile?)
      modifies this
      ensures Looped(LowerLoopOnce(s, |old(code)|, old(bindings), old(next), old(mode)), ty)
      decreases s, 1
    {
      if s.While? {
        ty := LowerWhile(s);
      } else {
        ty := LowerDoWhile(s);
      }
    }

    /** A loop is lowered from the types its bindings have; a refusal is taken back, and the loop lowered from
        wider ones. */
    method LowerLoopStatement(s: Stmt) returns (ty: Option<RegType>)
      requires Valid() && (s.While? || s.DoWhile?)
      modifies this
      ensures Looped(LowerLoop(s, |old(code)|, old(bindings), old(next), old(mode)), ty)
      decreases s, 2
    {
      hide LowerLoopOnce;
      if mode.Widened? {
        ty := LowerLoopTry(s);
        return;
      }
      var instructions, nextRegister, bindingsBefore := |code|, next, bindings;
      var frames, values := |loops|, |completions|;
      ty := LowerLoopTry(s);
      if ty.Some? {
        return;
      }
      code, next, bindings := code[..instructions], nextRegister, bindingsBefore;
      loops, completions := loops[..frames], completions[..values];
      mode := Widened;
      ty := LowerLoopTry(s);
      mode := Declared;
    }
  }

  lemma {:induction false} LoopPlaces(s: Stmt, at: nat, result: nat, head: Bindings)
    requires s.While? || s.DoWhile?
    ensures var loop, start := LoopOf(s, at, result, head), BodyAt(s, at);
            var end := start + StmtLen(s.body, false) + (if Abrupt(s.body) then 0 else 1);
            && loop.result == result && loop.head == head
            && (s.While? ==> start == at + 2 + ExprLen(s.condition) + 2 && loop.brk == end + 1 && loop.cont == at + 2)
            && (s.DoWhile? ==> start == at + 3 && loop.brk == end + ExprLen(s.condition) + 1 && loop.cont == end)
  {
    hide StmtLen, ExprLen, Abrupt;
  }

  lemma {:induction false} WhileShape(s: Stmt, at: nat, b: Bindings, base: nat, mode: Head)
    requires s.While?
    ensures LowerLoopOnce(s, at, b, base, mode)
            == if base + 1 > LAST_REGISTER then None
               else var head := FixedPoint(s.body, b, mode.Widened?);
                    var c := LowerExpr(s.condition, head, base + 1);
                    if c.None? || c.value.after != head then None
                    else
                      var loop := LoopOf(s, at, base, head);
                      var body := LowerStmt(s.body, BodyAt(s, at), head, base + 1, Some(loop), None, mode);
                      if body.None? || (!body.value.flow.FlowAbrupt? && !Fits(body.value.after, head)) then None
                      else
                        var flow := body.value.flow;
                        Some(LoweredStmt(WhileCode(base, c.value.code, body.value.code, flow.FlowAbrupt?),
                          FlowValue(if flow.FlowValue? then Merge(TUndefined, flow.ty) else TUndefined), head))
  {
    hide LowerExpr, WhileCode, DoWhileCode, Merge, MergeBindings, FixedPoint, LowerStmt, Fits;
  }

  lemma {:induction false} DoWhileShape(s: Stmt, at: nat, b: Bindings, base: nat, mode: Head)
    requires s.DoWhile?
    ensures LowerLoopOnce(s, at, b, base, mode)
            == if base + 1 > LAST_REGISTER then None
               else var head := FixedPoint(s.body, b, mode.Widened?);
                    var c := LowerExpr(s.condition, head, base + 1);
                    if c.None? || c.value.after != head then None
                    else
                      var loop := LoopOf(s, at, base, head);
                      var body := LowerStmt(s.body, BodyAt(s, at), head, base + 1, Some(loop), None, mode);
                      if body.None? || (!body.value.flow.FlowAbrupt? && !Fits(body.value.after, head)) then None
                      else
                        var flow := body.value.flow;
                        Some(LoweredStmt(DoWhileCode(base, body.value.code, flow.FlowAbrupt?, c.value.code),
                          FlowValue(if flow.FlowValue? then flow.ty else TUndefined), head))
  {
    hide LowerExpr, WhileCode, DoWhileCode, Merge, MergeBindings, FixedPoint, LowerStmt, Fits;
  }

  lemma {:induction false} DoWhileLaid(front: seq<Instr>, result: nat, test: seq<Instr>, body: seq<Instr>, abrupt: bool)
    ensures var keep := KeepCode(result, abrupt);
            front + [Lda(Undefined)] + [Star(result)] + [Ldar(result)]
            + (body + (keep + (test + ([JumpIfTrue(-(1 + |body| + |keep| + |test| + 1))] + [Ldar(result)]))))
            == front + DoWhileCode(result, body, abrupt, test)
  {
    hide KeepCode;
    var keep := KeepCode(result, abrupt);
    var value := [Ldar(result)];
    var last := test + ([JumpIfTrue(-(1 + |body| + |keep| + |test| + 1))] + value);
    var round := value + (body + keep);
    assert RoundCode(result, body, abrupt) == round;
    Regroup3(body, keep, last);
    Regroup3(value, body + keep, last);
    Regroup3(front + [Lda(Undefined)] + [Star(result)], value, body + (keep + last));
    Regroup4(front, [Lda(Undefined)], [Star(result)], round + last);
  }

  lemma {:induction false} WhileLaid(front: seq<Instr>, result: nat, test: seq<Instr>, body: seq<Instr>, abrupt: bool)
    ensures var keep := KeepCode(result, abrupt);
            front + [Lda(Undefined)] + [Star(result)] + test + [JumpIfFalse(|body| + |keep| + 2)] + [Ldar(result)]
            + (body + (keep + ([Jump(-(|test| + 1 + |body| + |keep| + 2))] + [Ldar(result)])))
            == front + WhileCode(result, test, body, abrupt)
  {
    hide KeepCode;
    var keep := KeepCode(result, abrupt);
    var value := [Ldar(result)];
    var jump := [Jump(-(|test| + 1 + |body| + |keep| + 2))];
    var branch := [JumpIfFalse(|body| + |keep| + 2)];
    var round := value + (body + keep);
    Regroup3(body, keep, jump + value);
    Regroup3(value, body + keep, jump + value);
    Regroup3(branch, value, body + (keep + (jump + value)));
    assert RoundCode(result, body, abrupt) == round;
    var tested := test + (branch + (round + (jump + value)));
    assert TestedCode(result, test, round) == tested;
    var start := front + [Lda(Undefined)] + [Star(result)];
    Regroup3(start + test, branch, value);
    Regroup3(start + test, branch + value, body + (keep + (jump + value)));
    Regroup3(start, test, branch + (round + (jump + value)));
    Regroup4(front, [Lda(Undefined)], [Star(result)], tested);
  }

  lemma NotedPushed(loops: seq<Frame>, breaks: seq<nat>, continues: seq<nat>, result: nat, head: Bindings, depth: nat)
    ensures Noted(loops + [Frame([], [], result, head, depth)], breaks, continues)
        == loops + [Frame(breaks, continues, result, head, depth)]
  {
    assert (loops + [Frame([], [], result, head, depth)])[..|loops|] == loops;
    assert [] + breaks == breaks && [] + continues == continues;
  }

  /** What a block that starts at `at` is lowered to. */
  ghost function BlockLowered(body: seq<Stmt>, at: nat, b: Bindings, base: nat, loop: Option<Loop>, mode: Head)
    : (r: Option<LoweredStmt>) {
    if base + 1 > LAST_REGISTER then None
    else
      var r := LowerList(body, at + 1, b, base + 1, loop, base, mode);
      if r.None? then None
      else Some(LoweredStmt(BlockCode(base, r.value.code, r.value.flow.FlowAbrupt?), r.value.flow, r.value.after))
  }

  lemma {:induction false} BlockOpened(front: seq<Instr>, result: nat, code: seq<Instr>, body: LoweredStmt,
      breaks: seq<nat>, continues: seq<nat>, loop: Option<Loop>)
    requires front + [Star(result)] <= code
    requires Opened(code[|front| + 1..], body.code, |front| + 1, breaks, continues, Brk(loop), Cont(loop))
    ensures var abrupt := body.flow.FlowAbrupt?;
            var whole := if abrupt then code else code + [Ldar(result)];
            && front <= whole
            && Opened(whole[|front|..], BlockCode(result, body.code, abrupt), |front|, breaks, continues, Brk(loop),
                Cont(loop))
  {
    hide Opened;
    var abrupt := body.flow.FlowAbrupt?;
    var part := code[|front| + 1..];
    var tail := if abrupt then [] else [Ldar(result)];
    OpenedBefore(part, body.code, tail, |front| + 1, breaks, continues, Brk(loop), Cont(loop));
    OpenedBehind([Star(result)], part + tail, body.code + tail, |front|, breaks, continues, Brk(loop), Cont(loop));
    assert code == front + [Star(result)] + part;
    assert (code + tail)[|front|..] == [Star(result)] + (part + tail);
    assert abrupt ==> code + tail == code;
  }

  /** A statement and, where it has a value, the instruction that keeps it. */
  ghost function KeptStmt(r: Option<LoweredStmt>, result: nat): (kept: Option<LoweredStmt>)
    ensures r.Some? <==> kept.Some?
    ensures r.Some? ==> kept.value.flow == r.value.flow && kept.value.after == r.value.after
  {
    if r.None? then None
    else Some(r.value.(code := r.value.code + if r.value.flow.FlowValue? then [Star(result)] else []))
  }

  /** A list whose first statements have been lowered. */
  ghost function Prepended(spec: seq<Instr>, soFar: Flow, r: Option<LoweredStmt>): (whole: Option<LoweredStmt>) {
    if r.None? then None
    else Some(LoweredStmt(spec + r.value.code, if r.value.flow.FlowEmpty? then soFar else r.value.flow, r.value.after))
  }

  lemma {:induction false} ListStarts(body: seq<Stmt>, at: nat, b: Bindings, base: nat, loop: Option<Loop>,
      result: nat, mode: Head, loops: seq<Frame>)
    ensures LowerList(body, at, b, base, loop, result, mode)
        == Prepended([], FlowEmpty, LowerList(body[0..], at, b, base, loop, result, mode))
    ensures Opened([], [], at, [], [], Brk(loop), Cont(loop)) && Noted(loops, [], []) == loops
  {
    hide LowerList;
    assert body[0..] == body;
    var r := LowerList(body, at, b, base, loop, result, mode);
    if r.Some? {
      assert [] + r.value.code == r.value.code;
    }
    NotedNone(loops);
  }

  lemma {:induction false} ListEnds(body: seq<Stmt>, at: nat, b: Bindings, base: nat, loop: Option<Loop>, result: nat,
      mode: Head, spec: seq<Instr>, soFar: Flow)
    ensures Prepended(spec, soFar, LowerList(body[|body|..], at, b, base, loop, result, mode))
        == Some(LoweredStmt(spec, soFar, b))
  {
    assert body[|body|..] == [];
    assert spec + [] == spec;
  }

  lemma {:induction false} ListStep(body: seq<Stmt>, i: nat, at: nat, b: Bindings, base: nat, loop: Option<Loop>,
      result: nat, mode: Head, spec: seq<Instr>, soFar: Flow)
    requires i < |body|
    ensures var kept := KeptStmt(LowerStmt(body[i], at, b, base, loop, Some(result), mode), result);
            var whole := Prepended(spec, soFar, LowerList(body[i..], at, b, base, loop, result, mode));
            if kept.None? then whole == None
            else if kept.value.flow.FlowAbrupt? then
              whole == Some(LoweredStmt(spec + kept.value.code, FlowAbrupt, kept.value.after))
            else
              whole == Prepended(spec + kept.value.code,
                                 if kept.value.flow.FlowValue? then kept.value.flow else soFar,
                                 LowerList(body[i + 1..], at + |kept.value.code|, kept.value.after, base, loop,
                                   result, mode))
  {
    hide LowerStmt, LowerList;
    ListFirst(body, i, at, b, base, loop, result, mode);
    var first := LowerStmt(body[i], at, b, base, loop, Some(result), mode);
    if first.Some? {
      assert first.value.code + [] == first.value.code;
      if !first.value.flow.FlowAbrupt? {
        var keep := KeepCode(result, !first.value.flow.FlowValue?);
        var rest := LowerList(body[i + 1..], at + |first.value.code| + |keep|, first.value.after, base, loop, result,
            mode);
        if rest.Some? {
          Regroup3(spec, first.value.code + keep, rest.value.code);
          Regroup3(first.value.code, keep, rest.value.code);
        }
      }
    }
  }

  lemma {:induction false} ListFirst(body: seq<Stmt>, i: nat, at: nat, b: Bindings, base: nat, loop: Option<Loop>,
      result: nat, mode: Head)
    requires i < |body|
    ensures var first := LowerStmt(body[i], at, b, base, loop, Some(result), mode);
            LowerList(body[i..], at, b, base, loop, result, mode)
            == if first.None? || first.value.flow.FlowAbrupt? then first
               else var keep := KeepCode(result, !first.value.flow.FlowValue?);
                    Prepended(first.value.code + keep, first.value.flow,
                              LowerList(body[i + 1..], at + |first.value.code| + |keep|, first.value.after, base,
                                  loop, result, mode))
  {
    hide LowerStmt, LowerList, KeepCode;
    assert body[i..][0] == body[i] && body[i..][1..] == body[i + 1..];
    ListShape(body[i..], at, b, base, loop, result, mode);
    var first := LowerStmt(body[i], at, b, base, loop, Some(result), mode);
    if first.Some? && !first.value.flow.FlowAbrupt? {
      var keep := KeepCode(result, !first.value.flow.FlowValue?);
      var rest := LowerList(body[i + 1..], at + |first.value.code| + |keep|, first.value.after, base, loop, result,
          mode);
      if rest.Some? {
        Regroup3(first.value.code, keep, rest.value.code);
      }
    }
  }

  lemma {:induction false} ListShape(body: seq<Stmt>, at: nat, b: Bindings, base: nat, loop: Option<Loop>,
      result: nat, mode: Head)
    requires body != []
    ensures var first := LowerStmt(body[0], at, b, base, loop, Some(result), mode);
            LowerList(body, at, b, base, loop, result, mode)
            == if first.None? || first.value.flow.FlowAbrupt? then first
               else var keep := KeepCode(result, !first.value.flow.FlowValue?);
                    var rest := LowerList(body[1..], at + |first.value.code| + |keep|, first.value.after, base, loop,
                        result, mode);
                    if rest.None? then None
                    else Some(LoweredStmt(first.value.code + (keep + rest.value.code),
                                          if rest.value.flow.FlowEmpty? then first.value.flow else rest.value.flow,
                                              rest.value.after))
  {
    hide LowerStmt, KeepCode;
  }

  lemma {:induction false} ListOpened(before: seq<Instr>, n: nat, spec: seq<Instr>, code: seq<Instr>,
      more: seq<Instr>, breaks: seq<nat>, continues: seq<nat>, b2: seq<nat>, c2: seq<nat>, loop: Option<Loop>)
    requires n <= |before| && before <= code
    requires Opened(before[n..], spec, n, breaks, continues, Brk(loop), Cont(loop))
    requires Opened(code[|before|..], more, |before|, b2, c2, Brk(loop), Cont(loop))
    ensures Opened(code[n..], spec + more, n, breaks + b2, continues + c2, Brk(loop), Cont(loop))
  {
    hide Opened;
    OpenedAppend(before[n..], spec, code[|before|..], more, n, breaks, continues, b2, c2, Brk(loop), Cont(loop));
    assert before[n..] + code[|before|..] == code[n..];
  }

  lemma {:induction false} KeptOpened(was: seq<Instr>, n: nat, spec: seq<Instr>, keep: seq<Instr>, breaks: seq<nat>,
      continues: seq<nat>, loop: Option<Loop>)
    requires n <= |was| && Opened(was[n..], spec, n, breaks, continues, Brk(loop), Cont(loop))
    ensures Opened((was + keep)[n..], spec + keep, n, breaks, continues, Brk(loop), Cont(loop))
    ensures keep == [] ==> was + keep == was
  {
    hide Opened;
    OpenedBefore(was[n..], spec, keep, n, breaks, continues, Brk(loop), Cont(loop));
    assert was[n..] + keep == (was + keep)[n..];
  }

  /** What the first arm of an `if` is lowered to, where its condition is. */
  ghost function ThenLowered(s: Stmt, at: nat, b: Bindings, base: nat, loop: Option<Loop>, mode: Head)
    : (r: Option<LoweredStmt>)
    requires s.If?
    ensures r.Some? ==> LowerExpr(s.condition, b, base).Some? && base + 1 <= LAST_REGISTER
  {
    var c := LowerExpr(s.condition, b, base);
    if c.None? || base + 1 > LAST_REGISTER then None
    else ArmLowered(Some(s.yes), at + |c.value.code| + 1, c.value.after, base + 1, loop, base, mode)
  }

  ghost predicate ThenLaid(front: seq<Instr>, code: seq<Instr>, test: seq<Instr>, yes: LoweredStmt, breaks: seq<nat>,
      continues: seq<nat>, loop: Option<Loop>, part: seq<Instr>) {
    && Opened(part, yes.code, |front| + |test| + 1, breaks, continues, Brk(loop), Cont(loop))
    && code == front + test + [JumpIfFalse(0)] + part + (if yes.flow.FlowAbrupt? then [] else [Jump(0)])
  }

  /** An `if` whose arms have open jumps has theirs. */
  lemma {:induction false} IfOpened(front: seq<Instr>, test: seq<Instr>, yesPart: seq<Instr>, yes: LoweredStmt,
      noPart: seq<Instr>, no: seq<Instr>, b1: seq<nat>, c1: seq<nat>, b2: seq<nat>, c2: seq<nat>, loop: Option<Loop>)
    requires var start := |front| + |test| + 1;
             var abrupt := yes.flow.FlowAbrupt?;
             && Opened(yesPart, yes.code, start, b1, c1, Brk(loop), Cont(loop))
             && Opened(noPart, no, start + |yesPart| + (if abrupt then 0 else 1), b2, c2, Brk(loop), Cont(loop))
    ensures var abrupt := yes.flow.FlowAbrupt?;
            var jump := if abrupt then [] else [Jump(|noPart|)];
            var code := front + test + [JumpIfFalse(|yesPart| + |jump|)] + yesPart + jump + noPart;
            && front <= code
            && Opened(code[|front|..], IfCode(test, yes.code, abrupt, no), |front|, b1 + b2, c1 + c2, Brk(loop),
                Cont(loop))
  {
    hide Opened;
    var start := |front| + |test| + 1;
    var abrupt := yes.flow.FlowAbrupt?;
    OpenedSizes(yesPart, yes.code, start, b1, c1, Brk(loop), Cont(loop));
    OpenedSizes(noPart, no, start + |yesPart| + (if abrupt then 0 else 1), b2, c2, Brk(loop), Cont(loop));
    var jump := if abrupt then [] else [Jump(|no|)];
    var branch := [JumpIfFalse(|yesPart| + |jump|)];
    var br, co := b1 + b2, c1 + c2;
    OpenedBehind(jump, noPart, no, start + |yesPart|, b2, c2, Brk(loop), Cont(loop));
    OpenedAppend(yesPart, yes.code, jump + noPart, jump + no, start, b1, c1, b2, c2, Brk(loop), Cont(loop));
    OpenedBehind(branch, yesPart + (jump + noPart), yes.code + (jump + no), start - 1, br, co, Brk(loop), Cont(loop));
    OpenedBehind(test, branch + (yesPart + (jump + noPart)), branch + (yes.code + (jump + no)), |front|, br, co,
        Brk(loop), Cont(loop));
    var rest := test + (branch + (yesPart + (jump + noPart)));
    Regroup4(front + test + branch, yesPart, jump, noPart);
    Regroup4(front, test, branch, yesPart + (jump + noPart));
    assert (front + rest)[|front|..] == rest;
  }

  lemma NotedLast(loops: seq<Frame>, breaks: seq<nat>, continues: seq<nat>)
    ensures loops != [] ==>
              var last, noted := |loops| - 1, Noted(loops, breaks, continues);
              && noted[..last] == loops[..last]
              && noted[last].result == loops[last].result && noted[last].head == loops[last].head
              && noted[last].depth == loops[last].depth
  {
  }

  lemma {:induction false} IfShape(s: Stmt, at: nat, b: Bindings, base: nat, loop: Option<Loop>, mode: Head)
    requires s.If?
    ensures var yes := ThenLowered(s, at, b, base, loop, mode);
            LowerIf(s, at, b, base, loop, mode)
            == if yes.None? then None
               else var c := LowerExpr(s.condition, b, base).value;
                    var other := at + |c.code| + 1 + |yes.value.code| + (if yes.value.flow.FlowAbrupt? then 0 else 1);
                    var no := ArmLowered(s.no, other, c.after, base + 1, loop, base, mode);
                    if no.None? then None
                    else var after := Join(yes.value, no.value);
                         if after.None? then None
                         else Some(LoweredStmt(IfCode(c.code, yes.value.code, yes.value.flow.FlowAbrupt?,
                             no.value.code),
                                               JoinFlow(yes.value.flow, no.value.flow), after.value))
  {
    hide LowerExpr, LowerStmt, BranchCode, IfCode, MergeBindings, JoinFlow;
  }

  /** What a branch of an `if` that starts at `at` is lowered to. */
  ghost function ArmLowered(arm: Option<Stmt>, at: nat, b: Bindings, base: nat, loop: Option<Loop>, completion: nat,
      mode: Head)
    : (r: Option<LoweredStmt>)
  {
    if arm.None? then Some(LoweredStmt(BranchCode(completion, []), FlowValue(TUndefined), b))
    else
      var r := LowerStmt(arm.value, at + 2, b, base, loop, Some(completion), mode);
      if r.None? then None else Some(r.value.(code := BranchCode(completion, r.value.code)))
  }

  lemma {:induction false} ArmOpened(code: seq<Instr>, completion: nat, part: seq<Instr>, body: seq<Instr>,
      breaks: seq<nat>, continues: seq<nat>, loop: Option<Loop>)
    requires Opened(part, body, |code| + 2, breaks, continues, Brk(loop), Cont(loop))
    ensures var whole := code + [Lda(Undefined)] + [Star(completion)] + part;
            && code <= whole
            && Opened(whole[|code|..], BranchCode(completion, body), |code|, breaks, continues, Brk(loop), Cont(loop))
  {
    hide Opened;
    var whole := code + [Lda(Undefined)] + [Star(completion)] + part;
    OpenedBehind([Star(completion)], part, body, |code| + 1, breaks, continues, Brk(loop), Cont(loop));
    OpenedBehind([Lda(Undefined)], [Star(completion)] + part, [Star(completion)] + body, |code|, breaks, continues,
        Brk(loop), Cont(loop));
    assert whole[|code|..] == [Lda(Undefined)] + ([Star(completion)] + part);
  }

  lemma NotedNone(loops: seq<Frame>)
    ensures Noted(loops, [], []) == loops
  {
    if loops != [] {
      var frame := loops[|loops| - 1];
      assert frame.breaks + [] == frame.breaks && frame.continues + [] == frame.continues;
    }
  }

  lemma NotedAgain(loops: seq<Frame>, b: seq<nat>, c: seq<nat>, more: seq<nat>, others: seq<nat>)
    ensures Noted(Noted(loops, b, c), more, others) == Noted(loops, b + more, c + others)
  {
    if loops != [] {
      var frame := loops[|loops| - 1];
      assert frame.breaks + b + more == frame.breaks + (b + more);
      assert frame.continues + c + others == frame.continues + (c + others);
    }
  }

  function Brk(loop: Option<Loop>): (target: nat) {
    if loop.Some? then loop.value.brk else 0
  }

  function Cont(loop: Option<Loop>): (target: nat) {
    if loop.Some? then loop.value.cont else 0
  }

  /** The innermost loop with more open jumps. */
  function Noted(loops: seq<Frame>, breaks: seq<nat>, continues: seq<nat>): (r: seq<Frame>)
    ensures |r| == |loops|
  {
    if loops == [] then []
    else
      var last := |loops| - 1;
      var frame := loops[last];
      loops[..last] + [frame.(breaks := frame.breaks + breaks, continues := frame.continues + continues)]
  }

  /** A jump out of a round, with its last instruction open. */
  function OpenLeave(completion: Option<nat>, result: nat): (code: seq<Instr>)
    ensures |code| > 0
  {
    (if completion.Some? then [Ldar(completion.value)] else []) + [Star(result)] + [Jump(0)]
  }

  lemma {:induction false} LeaveOpened(at: nat, completion: Option<nat>, result: nat, isBreak: bool, loop: Loop)
    ensures var open := OpenLeave(completion, result);
            var jump := at + |open| - 1;
            Opened(open, LeaveCode(at, completion, result, if isBreak then loop.brk else loop.cont), at,
                   if isBreak then [jump] else [], if isBreak then [] else [jump], loop.brk, loop.cont)
  {
  }

  lemma {:induction false} JumpShape(isBreak: bool, at: nat, b: Bindings, base: nat, loop: Option<Loop>,
      completion: Option<nat>, mode: Head)
    ensures LowerStmt(if isBreak then Break else Continue, at, b, base, loop, completion, mode)
            == if loop.None? || !Fits(b, loop.value.head) then None
               else Some(LoweredStmt(LeaveCode(at, completion, loop.value.result,
                   if isBreak then loop.value.brk else loop.value.cont),
                                     FlowAbrupt, b))
  {
    hide Fits, LeaveCode;
  }

  // ----- What an expression is lowered to, one level deep -----

  lemma {:induction false} SequenceShape(e: Expr, b: Bindings, base: nat)
    requires e.Sequence?
    ensures var l := LowerExpr(e.left, b, base);
            LowerExpr(e, b, base)
            == if l.None? then None
               else var r := LowerExpr(e.right, l.value.after, base);
                    if r.None? then None else Some(Lowered(l.value.code + r.value.code, r.value.ty, r.value.after))
  {
  }

  lemma {:induction false} ConditionalShape(e: Expr, b: Bindings, base: nat)
    requires e.Conditional?
    ensures var c := LowerExpr(e.condition, b, base);
            LowerExpr(e, b, base)
            == if c.None? then None
               else var y, n := LowerExpr(e.yes, c.value.after, base), LowerExpr(e.no, c.value.after, base);
                    if y.None? || n.None? || n.value.after != y.value.after then None
                    else Some(Lowered(ChoiceCode(c.value.code, y.value.code, n.value.code),
                        Merge(y.value.ty, n.value.ty), y.value.after))
  {
    hide ChoiceCode, Merge;
  }

  lemma {:induction false} LogicalShape(e: Expr, b: Bindings, base: nat)
    requires e.BinaryExpr? && IsLogical(e.op)
    ensures var l := LowerExpr(e.left, b, base);
            LowerExpr(e, b, base)
            == if l.None? then None
               else var r := LowerExpr(e.right, l.value.after, base);
                    if r.None? then None
                    else var after := MergeBindings(l.value.after, r.value.after);
                         if after.None? then None
                         else Some(Lowered(LogicalCode(e.op, l.value.code, r.value.code),
                             Merge(l.value.ty, r.value.ty), after.value))
  {
    hide LogicalCode, Merge, MergeBindings;
  }

  lemma {:induction false} BinaryShape(e: Expr, b: Bindings, base: nat)
    requires e.BinaryExpr? && !IsLogical(e.op)
    ensures var l := LowerExpr(e.left, b, base);
            LowerExpr(e, b, base)
            == if l.None? || base + 2 > LAST_REGISTER then None
               else var r := LowerExpr(e.right, l.value.after, base + 1);
                    if r.None? then None
                    else var last := Select(e.op, l.value.ty, r.value.ty, base, base + 1);
                         if last.None? then None
                         else Some(Lowered(BinaryCode(base, l.value.code, r.value.code, last.value.code),
                             last.value.ty, r.value.after))
  {
    hide BinaryCode, Select;
  }

  lemma {:induction false} AssignShape(e: Expr, b: Bindings, base: nat)
    requires e.Assign? && e.operator.None?
    ensures LowerExpr(e, b, base)
            == if !Assignable(b, e.name) then None
               else var r := LowerExpr(e.right, b, base);
                    if r.None? || e.name !in r.value.after then None
                    else Some(Lowered(r.value.code + [Star(b[e.name].register)], r.value.ty,
                        Retype(r.value.after, e.name, r.value.ty)))
  {
  }

  lemma {:induction false} CompoundShape(e: Expr, b: Bindings, base: nat)
    requires e.Assign? && e.operator.Some?
    ensures LowerExpr(e, b, base)
            == if !Assignable(b, e.name) || base + 2 > LAST_REGISTER then None
               else var r := LowerExpr(e.right, b, base + 1);
                    if r.None? || e.name !in r.value.after then None
                    else var last := SelectCompound(e.operator.value, b[e.name].ty.value, r.value.ty, base, base + 1);
                         if last.None? then None
                         else Some(Lowered(CompoundCode(b[e.name].register, base, r.value.code, last.value.code),
                             last.value.ty,
                                           Retype(r.value.after, e.name, last.value.ty)))
  {
    hide CompoundCode, SelectCompound;
  }

  // ----- The pieces code is emitted in -----

  lemma {:induction false} ChoiceLaid(code: seq<Instr>, test: seq<Instr>, yes: seq<Instr>, no: seq<Instr>)
    ensures code + test + [JumpIfFalse(|yes| + 1)] + yes + [Jump(|no|)] + no == code + ChoiceCode(test, yes, no)
  {
    var branch := [JumpIfFalse(|yes| + 1)];
    Regroup4(code + test + branch, yes, [Jump(|no|)], no);
    Regroup4(code, test, branch, yes + ([Jump(|no|)] + no));
  }

  lemma {:induction false} LogicalLaid(code: seq<Instr>, op: Binary, left: seq<Instr>, right: seq<Instr>)
    ensures code + left + [ShortCircuit(op, |right|)] + right == code + LogicalCode(op, left, right)
  {
    Regroup4(code, left, [ShortCircuit(op, |right|)], right);
  }

  lemma {:induction false} BinaryLaid(code: seq<Instr>, base: nat, left: seq<Instr>, right: seq<Instr>,
      last: seq<Instr>)
    ensures code + left + [Star(base)] + right + [Star(base + 1)] + [Ldar(base)] + last
            == code + BinaryCode(base, left, right, last)
  {
    Regroup4(code + left + [Star(base)] + right, [Star(base + 1)], [Ldar(base)], last);
    var end := [Star(base + 1)] + ([Ldar(base)] + last);
    Regroup4(code + left, [Star(base)], right, end);
    Regroup3(code, left, [Star(base)] + (right + end));
  }

  lemma {:induction false} CompoundLaid(code: seq<Instr>, register: nat, base: nat, right: seq<Instr>, last: seq<Instr>)
    ensures code + [Ldar(register)] + [Star(base)] + right + [Star(base + 1)] + [Ldar(base)] + last + [Star(register)]
            == code + CompoundCode(register, base, right, last)
  {
    hide BinaryCode;
    BinaryLaid(code, base, [Ldar(register)], right, last);
    Regroup3(code, BinaryCode(base, [Ldar(register)], right, last), [Star(register)]);
  }
}
