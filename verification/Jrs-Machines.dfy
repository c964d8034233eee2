/** Machines that take one step at a time. */
module Machines {
  import opened Wrappers

  /** `n` steps, if the machine takes as many. */
  ghost function Steps<S>(step: S -> Option<S>, s: S, n: nat): (r: Option<S>) {
    if n == 0 then Some(s)
    else
      var next := step(s);
      if next.None? then None else Steps(step, next.value, n - 1)
  }

  ghost predicate Reaches<S>(step: S -> Option<S>, a: S, b: S) {
    exists n: nat :: Steps(step, a, n) == Some(b)
  }

  /** The machine takes at least `n` steps. */
  ghost predicate RunsFor<S>(step: S -> Option<S>, a: S, n: nat) {
    Steps(step, a, n).Some?
  }

  lemma {:induction false} StepsAdd<S>(step: S -> Option<S>, a: S, b: S, m: nat, n: nat)
    requires Steps(step, a, m) == Some(b)
    ensures Steps(step, a, m + n) == Steps(step, b, n)
  {
    if m > 0 {
      StepsAdd(step, step(a).value, b, m - 1, n);
    }
  }

  lemma Here<S>(step: S -> Option<S>, a: S)
    ensures Reaches(step, a, a)
  {
    assert Steps(step, a, 0) == Some(a);
  }

  lemma Then<S>(step: S -> Option<S>, a: S, b: S, c: S)
    requires Reaches(step, a, b) && Reaches(step, b, c)
    ensures Reaches(step, a, c)
  {
    var m: nat :| Steps(step, a, m) == Some(b);
    var n: nat :| Steps(step, b, n) == Some(c);
    StepsAdd(step, a, b, m, n);
  }

  /** One step, and then on. */
  lemma First<S>(step: S -> Option<S>, a: S, b: S, c: S)
    requires step(a) == Some(b) && Reaches(step, b, c)
    ensures Reaches(step, a, c)
  {
    var n: nat :| Steps(step, b, n) == Some(c);
    assert Steps(step, a, n + 1) == Some(c);
  }

  lemma {:induction false} RunsLess<S>(step: S -> Option<S>, a: S, m: nat, n: nat)
    requires RunsFor(step, a, n) && m <= n
    ensures RunsFor(step, a, m)
  {
    if m > 0 {
      RunsLess(step, step(a).value, m - 1, n - 1);
    }
  }

  lemma RunsOn<S>(step: S -> Option<S>, a: S, b: S, n: nat)
    requires Reaches(step, a, b) && RunsFor(step, b, n)
    ensures RunsFor(step, a, n)
  {
    var m: nat :| Steps(step, a, m) == Some(b);
    StepsAdd(step, a, b, m, n);
    RunsLess(step, a, n, m + n);
  }

  /** One step, and then `n` more. */
  lemma RunsOne<S>(step: S -> Option<S>, a: S, b: S, n: nat)
    requires step(a) == Some(b) && RunsFor(step, b, n)
    ensures RunsFor(step, a, n + 1)
  {
  }
}
