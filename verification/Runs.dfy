/** Finite runs of a machine whose steps are labelled, and induction along them. */
module Runs {
  import opened Common

  predicate StepAt<S(==), A>(step: (S, A) -> Option<S>, run: seq<S>, acts: seq<A>, i: nat)
    requires |run| == |acts| + 1 && i < |acts|
  {
    step(run[i], acts[i]) == Some(run[i + 1])
  }

  /** `run[0]` is initial and action `acts[i]` leads from `run[i]` to `run[i + 1]`. */
  predicate IsRun<S(==), A>(init: S -> bool, step: (S, A) -> Option<S>, run: seq<S>, acts: seq<A>)
  {
    && |run| == |acts| + 1
    && init(run[0])
    && forall i :: 0 <= i < |acts| ==> StepAt(step, run, acts, i)
  }

  lemma Extend<S, A>(init: S -> bool, step: (S, A) -> Option<S>, run: seq<S>, acts: seq<A>, a: A, s: S)
    requires IsRun(init, step, run, acts) && step(run[|run| - 1], a) == Some(s)
    ensures IsRun(init, step, run + [s], acts + [a])
  {
    forall i | 0 <= i < |acts| + 1 ensures StepAt(step, run + [s], acts + [a], i) {
      if i < |acts| { assert StepAt(step, run, acts, i); }
    }
  }

  /** What holds initially and is kept by the allowed steps holds all along. */
  lemma {:induction false} Invariant<S(!new), A(!new)>(
      init: S -> bool, step: (S, A) -> Option<S>, allowed: (S, A) -> bool, inv: S -> bool,
      run: seq<S>, acts: seq<A>, i: nat)
    requires IsRun(init, step, run, acts) && i < |run|
    requires forall j :: 0 <= j < |acts| ==> allowed(run[j], acts[j])
    requires forall s :: init(s) ==> inv(s)
    requires forall s, a :: inv(s) && allowed(s, a) && step(s, a).Some? ==> inv(step(s, a).value)
    ensures inv(run[i])
  {
    if i > 0 {
      Invariant(init, step, allowed, inv, run, acts, i - 1);
      assert StepAt(step, run, acts, i - 1);
    }
  }

  /** A reflexive and transitive relation between the ends of every step relates any two states in order. */
  lemma {:induction false} Progress<S(!new), A(!new)>(
      init: S -> bool, step: (S, A) -> Option<S>, inv: S -> bool, rel: (S, S) -> bool,
      run: seq<S>, acts: seq<A>, i: nat, j: nat)
    requires IsRun(init, step, run, acts) && i <= j < |run|
    requires forall k :: 0 <= k < |run| ==> inv(run[k])
    requires forall s :: rel(s, s)
    requires forall s, s', s'' :: rel(s, s') && rel(s', s'') ==> rel(s, s'')
    requires forall s, a :: inv(s) && step(s, a).Some? ==> rel(s, step(s, a).value)
    ensures rel(run[i], run[j])
  {
    if i < j {
      Progress(init, step, inv, rel, run, acts, i, j - 1);
      assert StepAt(step, run, acts, j - 1);
    }
  }
}
