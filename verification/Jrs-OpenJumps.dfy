/** Code whose jumps out of it are still open, against the code it is to become. */
module OpenJumps {

  import opened RegisterMachine

  ghost predicate Within(places: seq<nat>, at: nat, end: nat) {
    forall p :: p in places ==> at <= p < end
  }

  /** `a`, which starts at `at`, is `b` but for the jumps at some places, which lead nowhere yet. */
  ghost predicate Opened(a: seq<Instr>, b: seq<Instr>, at: nat, breaks: seq<nat>, continues: seq<nat>, brk: nat,
      cont: nat) {
    && |a| == |b|
    && Within(breaks, at, at + |a|) && Within(continues, at, at + |a|)
    && (forall p :: p in breaks ==> p !in continues)
    && (forall i :: 0 <= i < |a| ==>
          && (at + i in breaks ==> a[i] == Jump(0) && b[i] == Jump(brk - (at + i + 1)))
          && (at + i in continues ==> a[i] == Jump(0) && b[i] == Jump(cont - (at + i + 1)))
          && (at + i !in breaks && at + i !in continues ==> b[i] == a[i]))
  }

  lemma OpenedSame(a: seq<Instr>, at: nat, brk: nat, cont: nat)
    ensures Opened(a, a, at, [], [], brk, cont)
  {
  }

  lemma OpenedSizes(a: seq<Instr>, b: seq<Instr>, at: nat, breaks: seq<nat>, continues: seq<nat>, brk: nat, cont: nat)
    requires Opened(a, b, at, breaks, continues, brk, cont)
    ensures |a| == |b|
  {
  }

  lemma {:induction false} OpenedAppend(a: seq<Instr>, b: seq<Instr>, c: seq<Instr>, d: seq<Instr>, at: nat,
      breaks: seq<nat>, continues: seq<nat>, more: seq<nat>, others: seq<nat>, brk: nat, cont: nat)
    requires Opened(a, b, at, breaks, continues, brk, cont)
    requires Opened(c, d, at + |a|, more, others, brk, cont)
    ensures Opened(a + c, b + d, at, breaks + more, continues + others, brk, cont)
  {
    var x, y := a + c, b + d;
    forall i | 0 <= i < |x|
      ensures at + i in breaks + more ==> x[i] == Jump(0) && y[i] == Jump(brk - (at + i + 1))
      ensures at + i in continues + others ==> x[i] == Jump(0) && y[i] == Jump(cont - (at + i + 1))
      ensures at + i !in breaks + more && at + i !in continues + others ==> y[i] == x[i]
    {
      if i < |a| {
        assert x[i] == a[i] && y[i] == b[i];
        assert at + i !in more && at + i !in others;
      } else {
        assert x[i] == c[i - |a|] && y[i] == d[i - |a|];
        assert at + i == at + |a| + (i - |a|);
        assert at + i !in breaks && at + i !in continues;
      }
    }
  }

  lemma {:induction false} OpenedBehind(front: seq<Instr>, a: seq<Instr>, b: seq<Instr>, at: nat, breaks: seq<nat>,
      continues: seq<nat>, brk: nat, cont: nat)
    requires Opened(a, b, at + |front|, breaks, continues, brk, cont)
    ensures Opened(front + a, front + b, at, breaks, continues, brk, cont)
  {
    hide Opened;
    OpenedSame(front, at, brk, cont);
    OpenedAppend(front, front, a, b, at, [], [], breaks, continues, brk, cont);
    assert [] + breaks == breaks && [] + continues == continues;
  }

  lemma {:induction false} OpenedBefore(a: seq<Instr>, b: seq<Instr>, tail: seq<Instr>, at: nat, breaks: seq<nat>,
      continues: seq<nat>, brk: nat, cont: nat)
    requires Opened(a, b, at, breaks, continues, brk, cont)
    ensures Opened(a + tail, b + tail, at, breaks, continues, brk, cont)
  {
    hide Opened;
    OpenedSame(tail, at + |a|, brk, cont);
    OpenedAppend(a, b, tail, tail, at, breaks, continues, [], [], brk, cont);
    assert breaks + [] == breaks && continues + [] == continues;
  }

  // ----- Closing them -----

  predicate IsJump(i: Instr) {
    i.Jump? || i.JumpIfFalse? || i.JumpIfTrue? || i.JumpIfNotNullish?
  }

  /** The jump at a place, led to a target; a jump is relative to the instruction after it. */
  function Aimed(i: Instr, at: nat, target: nat): (r: Instr) {
    var offset := target - (at + 1);
    match i
    case Jump(_) => Jump(offset)
    case JumpIfFalse(_) => JumpIfFalse(offset)
    case JumpIfTrue(_) => JumpIfTrue(offset)
    case JumpIfNotNullish(_) => JumpIfNotNullish(offset)
    case _ => i
  }

  ghost predicate Redirected(a: seq<Instr>, b: seq<Instr>, places: seq<nat>, target: nat) {
    && |a| == |b|
    && forall i :: 0 <= i < |a| ==> b[i] == if i in places then Jump(target - (i + 1)) else a[i]
  }

  lemma {:induction false} OpenPlaces(front: seq<Instr>, a: seq<Instr>, b: seq<Instr>, tail: seq<Instr>,
      breaks: seq<nat>, continues: seq<nat>, brk: nat, cont: nat)
    requires Opened(a, b, |front|, breaks, continues, brk, cont)
    ensures var code := front + (a + tail);
            && (forall p :: p in breaks ==> p < |code| && code[p].Jump?)
            && (forall p :: p in continues ==> p < |code| && code[p].Jump?)
  {
    var code := front + (a + tail);
    forall p | p in breaks || p in continues ensures p < |code| && code[p].Jump? {
      var i := p - |front|;
      assert p == |front| + i && a[i] == Jump(0);
    }
  }

  lemma {:induction false} StillJumps(a: seq<Instr>, b: seq<Instr>, places: seq<nat>, others: seq<nat>, target: nat)
    requires Redirected(a, b, places, target)
    requires forall p :: p in others ==> p < |a| && a[p].Jump?
    ensures forall p :: p in others ==> p < |b| && b[p].Jump?
  {
  }

  /** Closing the jumps left open gives the code that was to be. */
  lemma {:induction false} OpenClosed(front: seq<Instr>, a: seq<Instr>, b: seq<Instr>, tail: seq<Instr>,
      breaks: seq<nat>, continues: seq<nat>, brk: nat, cont: nat, second: seq<Instr>, third: seq<Instr>)
    requires Opened(a, b, |front|, breaks, continues, brk, cont)
    requires Redirected(front + (a + tail), second, breaks, brk) && Redirected(second, third, continues, cont)
    ensures third == front + (b + tail)
  {
    var first, last := front + (a + tail), front + (b + tail);
    forall i | 0 <= i < |first| ensures third[i] == last[i] {
      var k := i - |front|;
      if 0 <= k < |a| {
        assert first[i] == a[k] && last[i] == b[k];
        assert i == |front| + k;
      } else {
        assert i !in breaks && i !in continues;
        assert first[i] == last[i];
      }
    }
  }

  /** Closing the jumps one way leaves the others open. */
  lemma {:induction false} HalfClosed(front: seq<Instr>, a: seq<Instr>, b: seq<Instr>, tail: seq<Instr>,
      breaks: seq<nat>, continues: seq<nat>, brk: nat, cont: nat, second: seq<Instr>)
    returns (half: seq<Instr>)
    requires Opened(a, b, |front|, breaks, continues, brk, cont)
    requires Redirected(front + (a + tail), second, continues, cont)
    ensures second == front + (half + tail) && Opened(half, b, |front|, breaks, [], brk, cont)
  {
    var first := front + (a + tail);
    half := second[|front|..|front| + |a|];
    forall i | 0 <= i < |a|
      ensures |front| + i in breaks ==> half[i] == Jump(0) && b[i] == Jump(brk - (|front| + i + 1))
      ensures |front| + i !in breaks ==> b[i] == half[i]
    {
      assert half[i] == second[|front| + i] && first[|front| + i] == a[i];
    }
    var last := front + (half + tail);
    forall i | 0 <= i < |first| ensures second[i] == last[i] {
      if i < |front| || i >= |front| + |a| {
        assert i !in continues;
        assert first[i] == last[i];
      }
    }
  }
}
