/** Induction over the runs of any step function. */
module Runs {

  ghost predicate IsRun<S, O>(states: seq<S>, ops: seq<O>, allowed: (S, O) -> bool, step: (S, O) -> S) {
    && |states| == |ops| + 1
    && forall i {:trigger ops[i]} :: 0 <= i < |ops| ==>
      allowed(states[i], ops[i]) && states[i + 1] == step(states[i], ops[i])
  }

  /** What every allowed step keeps holds throughout a run. */
  lemma {:induction false} Throughout<S(!new), O(!new)>(
    states: seq<S>, ops: seq<O>, allowed: (S, O) -> bool, step: (S, O) -> S, holds: S -> bool, first: nat, last: nat)
    requires IsRun(states, ops, allowed, step) && first <= last < |states|
    requires forall s, op :: holds(s) && allowed(s, op) ==> holds(step(s, op))
    requires holds(states[first])
    ensures holds(states[last])
    decreases last
  {
    if first < last {
      Throughout(states, ops, allowed, step, holds, first, last - 1);
      assert allowed(states[last - 1], ops[last - 1]);
    }
  }

  /** A transitive relation between successive states relates any two states of a run. */
  lemma {:induction false} Between<S(!new), O(!new)>(
    states: seq<S>, ops: seq<O>, allowed: (S, O) -> bool, step: (S, O) -> S,
    holds: S -> bool, related: (S, S) -> bool, first: nat, last: nat)
    requires IsRun(states, ops, allowed, step) && first <= last < |states|
    requires forall s, op :: holds(s) && allowed(s, op) ==> holds(step(s, op)) && related(s, step(s, op))
    requires forall s :: related(s, s)
    requires forall s, t, u :: related(s, t) && related(t, u) ==> related(s, u)
    requires holds(states[first])
    ensures holds(states[last]) && related(states[first], states[last])
    decreases last
  {
    if first < last {
      Between(states, ops, allowed, step, holds, related, first, last - 1);
      assert allowed(states[last - 1], ops[last - 1]);
    }
  }
}
