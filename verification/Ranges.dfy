/**
 What running a range over a list of targets amounts to: where it starts, where it ends, and that
 every target gets its turn.
 */
module Ranges {
  import opened Common
  import opened Executor
  import opened UndoLaw

  // ---------------------------------------------------------------------------------------
  // Where a range starts
  // ---------------------------------------------------------------------------------------

  /** The first result of a range is the execution of its first action on the cluster as it was. */
  lemma {:induction false} RangeStarts<S, D>(p: Pipeline<S, D>, from: int, to: int, s: S)
    requires 0 <= from < to && from < |p.actions|
    ensures var rs := RunSpec(p, from, to, s).results;
            rs != [] && SameExecution(rs[0], RunOne(p.registry, p.actions[from], p.target, p.metricValue, s).result)
  {
    AbortCharacterisation(p, from, to, s);
    assert StateBefore(p, from, from, s) == s;
    assert SameExecution(RunSpec(p, from, to, s).results[0], ExecutionAt(p, from, from + 0, s).result);
  }

  /** One outcome after another: results add up, and the last error is remembered. */
  function Then<S, D>(a: RunOutcome<S, D>, b: RunOutcome<S, D>): RunOutcome<S, D> {
    RunOutcome(b.state, a.results + b.results, if b.err.Some? then b.err else a.err)
  }

  lemma ThenAssociates<S, D>(a: RunOutcome<S, D>, b: RunOutcome<S, D>, c: RunOutcome<S, D>)
    ensures Then(Then(a, b), c) == Then(a, Then(b, c))
  {
  }

  lemma {:induction false} OneTargetMore<S, D>(p: Pipeline<S, D>, targets: seq<Target>, target: Target, from: int, to: int, s: S)
    ensures var before := RunTargets(p, targets, from, to, s);
            RunTargets(p, targets + [target], from, to, s) == Then(before, RunSpec(p.(target := target), from, to, before.state))
  {
    assert (targets + [target])[..|targets|] == targets;
  }

  lemma {:induction false} OneMoreInTurn<S, D>(p: Pipeline<S, D>, a: seq<Target>, b: seq<Target>, last: Target, from: int, to: int, s: S,
                                               first: RunOutcome<S, D>, second: RunOutcome<S, D>)
    requires first == RunTargets(p, a, from, to, s) && second == RunTargets(p, b, from, to, first.state)
    requires RunTargets(p, a + b, from, to, s) == Then(first, second)
    ensures RunTargets(p, a + (b + [last]), from, to, s) == Then(first, RunTargets(p, b + [last], from, to, first.state))
  {
    var o := RunSpec(p.(target := last), from, to, second.state);
    assert a + (b + [last]) == (a + b) + [last];
    OneTargetMore(p, a + b, last, from, to, s);
    OneTargetMore(p, b, last, from, to, first.state);
    ThenAssociates(first, second, o);
  }

  /** Targets are served in turn, each from the cluster its predecessors left, whatever failed before. */
  lemma {:induction false} TargetsInTurn<S, D>(p: Pipeline<S, D>, a: seq<Target>, b: seq<Target>, from: int, to: int, s: S)
    ensures var first := RunTargets(p, a, from, to, s);
            RunTargets(p, a + b, from, to, s) == Then(first, RunTargets(p, b, from, to, first.state))
  {
    var first := RunTargets(p, a, from, to, s);
    if b == [] {
      assert a + b == a;
      assert Then(first, RunOutcome(first.state, [], None)) == first;
    } else {
      var init, last := b[..|b| - 1], b[|b| - 1];
      TargetsInTurn(p, a, init, from, to, s);
      OneMoreInTurn(p, a, init, last, from, to, s, first, RunTargets(p, init, from, to, first.state));
      assert b == init + [last];
    }
  }

  lemma {:induction false} OneTarget<S, D>(p: Pipeline<S, D>, target: Target, from: int, to: int, s: S)
    ensures RunTargets(p, [target], from, to, s) == RunSpec(p.(target := target), from, to, s)
  {
    var o := RunSpec(p.(target := target), from, to, s);
    assert [target][..0] == [];
    assert RunTargets(p, [], from, to, s) == RunOutcome(s, [], None);
    assert [] + o.results == o.results;
  }

  /** The first result for each target is the execution of the range's first action on it. */
  lemma {:induction false} EachTargetStarts<S, D>(p: Pipeline<S, D>, targets: seq<Target>, from: int, to: int, s: S, k: nat)
    requires 0 <= from < to && from < |p.actions| && k < |targets|
    ensures var before := RunTargets(p, targets[..k], from, to, s);
            var rs := RunTargets(p, targets, from, to, s).results;
            && before.results <= rs && |before.results| < |rs|
            && SameExecution(rs[|before.results|], RunOne(p.registry, p.actions[from], targets[k], p.metricValue, before.state).result)
  {
    var before := RunTargets(p, targets[..k], from, to, s);
    assert targets == targets[..k] + ([targets[k]] + targets[k + 1..]);
    TargetsInTurn(p, targets[..k], [targets[k]] + targets[k + 1..], from, to, s);
    TargetsInTurn(p, [targets[k]], targets[k + 1..], from, to, before.state);
    OneTarget(p, targets[k], from, to, before.state);
    RangeStarts(p.(target := targets[k]), from, to, before.state);
  }

  // ---------------------------------------------------------------------------------------
  // Where it ends
  // ---------------------------------------------------------------------------------------

  /** No target gets more results than the range has actions. */
  lemma {:induction false} RangeBounded<S, D>(p: Pipeline<S, D>, targets: seq<Target>, from: int, to: int, s: S)
    requires 0 <= from <= to <= |p.actions|
    ensures |RunTargets(p, targets, from, to, s).results| <= |targets| * (to - from)
  {
    if targets != [] {
      var init, last := targets[..|targets| - 1], targets[|targets| - 1];
      var before := RunTargets(p, init, from, to, s);
      assert targets == init + [last];
      RangeBounded(p, init, from, to, s);
      OneTargetMore(p, init, last, from, to, s);
      RunBounded(p.(target := last), from, to, before.state);
      OneMoreTimes(|init|, to - from);
    }
  }

  lemma {:induction false} RunBounded<S, D>(p: Pipeline<S, D>, from: int, to: int, s: S)
    requires 0 <= from <= to <= |p.actions|
    ensures |RunSpec(p, from, to, s).results| <= to - from
  {
    AbortCharacterisation(p, from, to, s);
  }

  lemma OneMoreTimes(n: nat, m: nat)
    ensures (n + 1) * m == n * m + m
  {
  }

  lemma {:induction false} EmptyRange<S, D>(p: Pipeline<S, D>, targets: seq<Target>, from: nat, s: S)
    ensures RunTargets(p, targets, from, from, s).results == [] && RunTargets(p, targets, from, from, s).state == s
  {
    if targets != [] {
      EmptyRange(p, targets[..|targets| - 1], from, s);
    }
  }

  /** The same actions on this range, whatever the two pipelines hold elsewhere. */
  ghost predicate Agree<S, D>(p: Pipeline<S, D>, q: Pipeline<S, D>, from: nat, to: nat) {
    && p.registry == q.registry && p.target == q.target && p.metricValue == q.metricValue
    && from <= to <= |p.actions| && to <= |q.actions| && p.actions[from..to] == q.actions[from..to]
  }

  lemma {:induction false} SameStates<S, D>(p: Pipeline<S, D>, q: Pipeline<S, D>, from: nat, to: nat, i: nat, s: S)
    requires Agree(p, q, from, to) && from <= i <= to
    ensures StateBefore(p, from, i, s) == StateBefore(q, from, i, s)
    ensures i < to ==> ExecutionAt(p, from, i, s) == ExecutionAt(q, from, i, s) && p.actions[i] == q.actions[i]
  {
    if from < i {
      SameStates(p, q, from, to, i - 1, s);
    }
    if i < to {
      assert p.actions[i] == p.actions[from..to][i - from] == q.actions[from..to][i - from] == q.actions[i];
    }
  }

  lemma {:induction false} SameResults<S, D>(p: Pipeline<S, D>, q: Pipeline<S, D>, from: nat, to: nat, i: nat, s: S)
    requires Agree(p, q, from, to) && from <= i <= to
    ensures ResultsOf(p, from, i, s) == ResultsOf(q, from, i, s)
  {
    if from < i {
      SameResults(p, q, from, to, i - 1, s);
      SameStates(p, q, from, to, i - 1, s);
    }
  }

  /** What stands outside a range has no part in what running it does. */
  lemma {:induction false} RangeIgnoresRest<S, D>(p: Pipeline<S, D>, q: Pipeline<S, D>, from: nat, to: nat, s: S)
    requires Agree(p, q, from, to)
    ensures RunSpec(p, from, to, s) == RunSpec(q, from, to, s)
  {
    if from < to {
      var k := FirstAbort(p, from, from, to, s);
      forall i | from <= i < to
        ensures AbortsAt(p, from, i, s) <==> AbortsAt(q, from, i, s)
      {
        SameStates(p, q, from, to, i, s);
      }
      FirstAbortIs(q, from, from, k, to, s);
      var m := if k < to then k + 1 else to;
      SameStates(p, q, from, to, if k < to then k else from, s);
      SameStates(p, q, from, to, m, s);
      SameResults(p, q, from, to, m, s);
    }
  }

  lemma {:induction false} TargetsIgnoreRest<S, D>(p: Pipeline<S, D>, q: Pipeline<S, D>, targets: seq<Target>, from: nat, to: nat, s: S)
    requires Agree(p, q, from, to)
    ensures RunTargets(p, targets, from, to, s) == RunTargets(q, targets, from, to, s)
  {
    if targets != [] {
      var n := |targets| - 1;
      TargetsIgnoreRest(p, q, targets[..n], from, to, s);
      RangeIgnoresRest(p.(target := targets[n]), q.(target := targets[n]), from, to, RunTargets(p, targets[..n], from, to, s).state);
    }
  }
}
