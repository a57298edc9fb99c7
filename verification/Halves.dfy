/**
 The two halves of a gated trigger, as the two reconcilers run them, against the pipeline they were
 cut from.
 */
module Halves {
  import opened Common
  import opened Executor
  import opened UndoLaw
  import opened Ranges
  import opened ApprovalApi
  import opened Protocol
  import PolicyReconciler
  import AuditReconciler

  /** n is where the pipeline holds: the first action that waits for approval, or its end. */
  predicate HoldsAt(actions: seq<Action>, n: int) {
    && 0 <= n <= |actions| && (forall j :: 0 <= j < n ==> !actions[j].requiresApproval)
    && (n < |actions| ==> actions[n].requiresApproval)
  }

  lemma {:induction false} HoldsAtGate(actions: seq<Action>, n: int)
    requires HoldsAt(actions, n)
    ensures n == if GateOf(actions) >= 0 then GateOf(actions) else |actions|
  {
  }

  /** What the trigger does depends on the actions in front of the gate alone, not on the gated action
      nor on anything behind it. */
  lemma {:induction false} NothingBehindTheGateRuns<S(!new)>(r: PolicyReconciler.Reconciler<S>, q: PolicyReconciler.Reconciler<S>, n: nat,
                                                              targets: seq<Target>, value: string, s: S)
    requires r.registry == q.registry && HoldsAt(r.actions, n) && HoldsAt(q.actions, n) && r.actions[..n] == q.actions[..n]
    ensures r.FirstHalf(targets, value, s) == q.FirstHalf(targets, value, s)
  {
    HoldsAtGate(r.actions, n);
    HoldsAtGate(q.actions, n);
    var nobody := Target("", "", "", "");
    TargetsIgnoreRest(r.PipelineFor(nobody, value), q.PipelineFor(nobody, value), targets, 0, n, s);
  }

  /** What a release does depends on the gated action and those behind it alone. */
  lemma {:induction false} NothingInFrontOfTheGateRuns<S(!new)>(r: AuditReconciler.Reconciler<S>, q: AuditReconciler.Reconciler<S>, spec: AuditSpec, s: S)
    requires r.registry == q.registry && r.store.cfg.namespace == q.store.cfg.namespace && |r.actions| == |q.actions|
    requires spec.gate.Some? && spec.gate.value.actionIndex <= |r.actions|
    requires r.actions[spec.gate.value.actionIndex..] == q.actions[spec.gate.value.actionIndex..]
    ensures r.HeldHalf(spec, s) == q.HeldHalf(spec, s)
  {
    var gate, nobody := spec.gate.value, Target("", "", "", "");
    assert r.actions[gate.actionIndex..|r.actions|] == q.actions[gate.actionIndex..|q.actions|];
    TargetsIgnoreRest(Pipeline(r.registry, r.actions, nobody, spec.metricValue), Pipeline(q.registry, q.actions, nobody, spec.metricValue),
                      EffectiveTargets(gate.targets, r.store.cfg.namespace), gate.actionIndex, |r.actions|, s);
  }

  /** Every target recorded on the gate has its turn, and its first result is the execution of the gated
      action on it, whatever failed on the targets before. */
  lemma {:induction false} GatedActionRunsOnEachTarget<S(!new)>(r: AuditReconciler.Reconciler<S>, spec: AuditSpec, s: S, k: nat) returns (at: nat, before: S)
    requires spec.gate.Some? && spec.gate.value.actionIndex < |r.actions| && k < |spec.gate.value.targets|
    ensures var gate, rs := spec.gate.value, r.HeldHalf(spec, s).results;
            at < |rs| && SameExecution(rs[at], RunOne(r.registry, r.actions[gate.actionIndex], gate.targets[k], spec.metricValue, before).result)
    ensures at == 0 && before == s <== k == 0
    ensures k <= at
  {
    var gate := spec.gate.value;
    var p := Pipeline(r.registry, r.actions, Target("", "", "", ""), spec.metricValue);
    var earlier := RunTargets(p, gate.targets[..k], gate.actionIndex, |r.actions|, s);
    EachTargetStarts(p, gate.targets, gate.actionIndex, |r.actions|, s, k);
    OneResultEach(p, gate.targets[..k], gate.actionIndex, |r.actions|, s);
    at, before := |earlier.results|, earlier.state;
  }

  lemma {:induction false} OneResultEach<S, D>(p: Pipeline<S, D>, targets: seq<Target>, from: int, to: int, s: S)
    requires 0 <= from < to && from < |p.actions|
    ensures |targets| <= |RunTargets(p, targets, from, to, s).results|
  {
    if targets != [] {
      var init, last := targets[..|targets| - 1], targets[|targets| - 1];
      OneResultEach(p, init, from, to, s);
      RangeStarts(p.(target := last), from, to, RunTargets(p, init, from, to, s).state);
    }
  }

  /** On one target, the trigger's half and then the release's are the whole pipeline, if the first did
      not abort; they make up the whole run as `Merged` says. */
  lemma {:induction false} HalvesMakeTheWhole<S(!new)>(pr: PolicyReconciler.Reconciler<S>, ar: AuditReconciler.Reconciler<S>, spec: AuditSpec,
                                                        target: Target, s: S)
    requires pr.registry == ar.registry && pr.actions == ar.actions
    requires spec.gate.Some? && HoldsAt(pr.actions, spec.gate.value.actionIndex)
    requires spec.gate.value.targets == [target] || (spec.gate.value.targets == [] && target == Target("", "", "", ar.store.cfg.namespace))
    ensures var first := pr.FirstHalf([target], spec.metricValue, s);
            var held := ar.HeldHalf(spec, first.state);
            RunSpec(Pipeline(pr.registry, pr.actions, target, spec.metricValue), 0, |pr.actions|, s) == Merged(pr.registry, first, held)
  {
    var n := spec.gate.value.actionIndex;
    var p := Pipeline(pr.registry, pr.actions, Target("", "", "", ""), spec.metricValue);
    var q := p.(target := target);
    HoldsAtGate(pr.actions, n);
    OneTarget(p, target, 0, n, s);
    OneTarget(p, target, n, |p.actions|, RunSpec(q, 0, n, s).state);
    SplitRefinesWhole(q, n, s);
  }

  /** A policy without a gate runs its whole pipeline when it triggers. */
  lemma {:induction false} UngatedRunsTheWhole<S(!new)>(pr: PolicyReconciler.Reconciler<S>, value: string, target: Target, s: S)
    requires HoldsAt(pr.actions, |pr.actions|)
    ensures pr.FirstHalf([target], value, s) == RunSpec(Pipeline(pr.registry, pr.actions, target, value), 0, |pr.actions|, s)
  {
    HoldsAtGate(pr.actions, |pr.actions|);
    OneTarget(Pipeline(pr.registry, pr.actions, Target("", "", "", ""), value), target, 0, |pr.actions|, s);
  }

  /** Both halves serve their targets in turn: a list of targets is served like its first part and then,
      from the cluster that leaves, its second. */
  lemma {:induction false} HalvesServeInTurn<S(!new)>(pr: PolicyReconciler.Reconciler<S>, a: seq<Target>, b: seq<Target>, value: string, s: S)
    ensures var first := pr.FirstHalf(a, value, s);
            var second := pr.FirstHalf(b, value, first.state);
            pr.FirstHalf(a + b, value, s) ==
            RunOutcome(second.state, first.results + second.results, if second.err.Some? then second.err else first.err)
  {
    TargetsInTurn(pr.PipelineFor(Target("", "", "", ""), value), a, b, 0, if GateOf(pr.actions) >= 0 then GateOf(pr.actions) else |pr.actions|, s);
  }
}
