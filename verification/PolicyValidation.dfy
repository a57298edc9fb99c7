/**
 Admission of a policy (internal/webhook/v1alpha1/reactivepolicy_webhook.go) and what the rest of
 the operator may assume of an admitted one: a single gate, reversible plugins, bounded timings.
 */
module PolicyValidation {
  import opened Common
  import opened Executor
  import opened UndoLaw
  import opened ReplayLaw
  import opened AuditRecord
  import opened RevertLaw
  import opened Protocol

  /** What validation asks of a registered plugin. */
  datatype Validator = Validator(accepts: string -> bool, reversible: bool)

  /** Durations are in seconds; a non-positive optional one stands for its default. */
  datatype PolicySpec = PolicySpec(
    source: string, duration: int, pollInterval: int, cooldown: int, approvalTimeout: int,
    maxTriggersPerHour: Option<int>, maxResources: Option<int>, actions: seq<Action>, allowIrreversible: bool)

  datatype FieldError =
    | SourceNotSupported | DurationOutOfBounds | PollIntervalOutOfBounds | CooldownOutOfBounds | TimeoutOutOfBounds
    | SecondGate(at: nat, first: nat) | UnknownPlugin(at: nat) | ParamsRefused(at: nat) | IrreversiblePlugin(at: nat)

  const PROMETHEUS := "prometheus"

  const MIN_COOLDOWN := 30
  const MAX_COOLDOWN := 24 * 3600
  const MIN_POLL_INTERVAL := 10
  const MAX_POLL_INTERVAL := 5 * 60
  const MIN_DURATION := 30
  const MAX_DURATION := 24 * 3600
  const MIN_APPROVAL_TIMEOUT := 60
  const MAX_APPROVAL_TIMEOUT := 24 * 3600

  // ---------------------------------------------------------------------------------------
  // The checks
  // ---------------------------------------------------------------------------------------

  method ValidateObserve(s: PolicySpec) returns (errs: seq<FieldError>)
    ensures forall e :: e in errs <==> TimingFault(s, e) && !(e.CooldownOutOfBounds? || e.TimeoutOutOfBounds?)
    ensures SourceNotSupported in errs <==> s.source != "prometheus"
    ensures DurationOutOfBounds in errs <==> s.duration < 30 || 86400 < s.duration
    ensures PollIntervalOutOfBounds in errs <==> s.pollInterval != 0 && (s.pollInterval < 10 || 300 < s.pollInterval)
  {
    errs := [];
    if s.source != PROMETHEUS {
      errs := errs + [SourceNotSupported];
    }
    if s.duration < MIN_DURATION || s.duration > MAX_DURATION {
      errs := errs + [DurationOutOfBounds];
    }
    if s.pollInterval != 0 && (s.pollInterval < MIN_POLL_INTERVAL || s.pollInterval > MAX_POLL_INTERVAL) {
      errs := errs + [PollIntervalOutOfBounds];
    }
  }

  method ValidateTimings(s: PolicySpec) returns (errs: seq<FieldError>)
    ensures forall e :: e in errs <==> TimingFault(s, e) && (e.CooldownOutOfBounds? || e.TimeoutOutOfBounds?)
    ensures CooldownOutOfBounds in errs <==> s.cooldown != 0 && (s.cooldown < 30 || 86400 < s.cooldown)
    ensures TimeoutOutOfBounds in errs <==> s.approvalTimeout != 0 && (s.approvalTimeout < 60 || 86400 < s.approvalTimeout)
  {
    errs := [];
    if s.cooldown != 0 && (s.cooldown < MIN_COOLDOWN || s.cooldown > MAX_COOLDOWN) {
      errs := errs + [CooldownOutOfBounds];
    }
    if s.approvalTimeout != 0 && (s.approvalTimeout < MIN_APPROVAL_TIMEOUT || s.approvalTimeout > MAX_APPROVAL_TIMEOUT) {
      errs := errs + [TimeoutOutOfBounds];
    }
  }

  predicate TimingFault(s: PolicySpec, e: FieldError) {
    match e
    case SourceNotSupported => s.source != PROMETHEUS
    case DurationOutOfBounds => !(MIN_DURATION <= s.duration <= MAX_DURATION)
    case PollIntervalOutOfBounds => s.pollInterval != 0 && !(MIN_POLL_INTERVAL <= s.pollInterval <= MAX_POLL_INTERVAL)
    case CooldownOutOfBounds => s.cooldown != 0 && !(MIN_COOLDOWN <= s.cooldown <= MAX_COOLDOWN)
    case TimeoutOutOfBounds => s.approvalTimeout != 0 && !(MIN_APPROVAL_TIMEOUT <= s.approvalTimeout <= MAX_APPROVAL_TIMEOUT)
    case _ => false
  }

  /** An error about an action says what is wrong with it. */
  predicate ActionFault(validators: map<string, Validator>, actions: seq<Action>, allowIrreversible: bool, e: FieldError) {
    match e
    case SecondGate(i, g) => g < i < |actions| && actions[i].requiresApproval && GateOf(actions) == g
    case UnknownPlugin(i) => i < |actions| && actions[i].plugin !in validators
    case ParamsRefused(i) =>
      i < |actions| && actions[i].plugin in validators && !validators[actions[i].plugin].accepts(actions[i].params)
    case IrreversiblePlugin(i) =>
      i < |actions| && actions[i].plugin in validators && !validators[actions[i].plugin].reversible && !allowIrreversible
    case _ => false
  }

  /** The position an error about an action is reported at. */
  predicate Reports(e: FieldError, i: nat) {
    (e.SecondGate? || e.UnknownPlugin? || e.ParamsRefused? || e.IrreversiblePlugin?) && e.at < i
  }

  /** validateActions: every fault is reported, and nothing else. */
  method ValidateActions(validators: map<string, Validator>, actions: seq<Action>, allowIrreversible: bool)
      returns (errs: seq<FieldError>)
    ensures forall e :: e in errs <==> ActionFault(validators, actions, allowIrreversible, e)
  {
    errs := [];
    var gated := -1;
    for i := 0 to |actions|
      invariant -1 <= gated < i
      invariant gated < 0 ==> forall j :: 0 <= j < i ==> !actions[j].requiresApproval
      invariant gated >= 0 ==> GateOf(actions) == gated
      invariant forall e :: e in errs <==> Reports(e, i) && ActionFault(validators, actions, allowIrreversible, e)
    {
      var act := actions[i];
      ghost var gatedBefore := gated;
      if act.requiresApproval {
        if gated >= 0 {
          errs := errs + [SecondGate(i, gated)];
        } else {
          gated := i;
          GateOfIsFirst(actions, i);
        }
      }
      if act.plugin !in validators {
        errs := errs + [UnknownPlugin(i)];
        continue;
      }
      if !validators[act.plugin].accepts(act.params) {
        errs := errs + [ParamsRefused(i)];
      }
      if !validators[act.plugin].reversible && !allowIrreversible {
        errs := errs + [IrreversiblePlugin(i)];
      }
    }
  }

  /** validate: admitted when nothing is reported. */
  method Validate(validators: map<string, Validator>, s: PolicySpec) returns (errs: seq<FieldError>)
    ensures forall e :: e in errs <==> TimingFault(s, e) || ActionFault(validators, s.actions, s.allowIrreversible, e)
    ensures errs == [] <==> Admitted(validators, s)
  {
    var observe := ValidateObserve(s);
    var timings := ValidateTimings(s);
    var actions := ValidateActions(validators, s.actions, s.allowIrreversible);
    errs := observe + timings + actions;
    NoFaultIsAdmission(validators, s);
    assert errs == [] <==> forall e :: e !in errs by {
      if errs != [] {
        assert errs[0] in errs;
      }
    }
  }

  // ---------------------------------------------------------------------------------------
  // What admission means
  // ---------------------------------------------------------------------------------------

  /** Bounded timings, at most one gate, registered plugins with accepted parameters, and reversible
      ones unless the policy opts out. */
  ghost predicate Admitted(validators: map<string, Validator>, s: PolicySpec) {
    && s.source == PROMETHEUS
    && MIN_DURATION <= s.duration <= MAX_DURATION
    && (s.pollInterval == 0 || MIN_POLL_INTERVAL <= s.pollInterval <= MAX_POLL_INTERVAL)
    && (s.cooldown == 0 || MIN_COOLDOWN <= s.cooldown <= MAX_COOLDOWN)
    && (s.approvalTimeout == 0 || MIN_APPROVAL_TIMEOUT <= s.approvalTimeout <= MAX_APPROVAL_TIMEOUT)
    && OneGateOnly(s.actions)
    && (forall i :: 0 <= i < |s.actions| ==> PluginAdmitted(validators, s.actions[i], s.allowIrreversible))
  }

  ghost predicate OneGateOnly(actions: seq<Action>) {
    forall i, j :: 0 <= i < j < |actions| ==> !(actions[i].requiresApproval && actions[j].requiresApproval)
  }

  predicate PluginAdmitted(validators: map<string, Validator>, act: Action, allowIrreversible: bool) {
    && act.plugin in validators
    && validators[act.plugin].accepts(act.params)
    && (validators[act.plugin].reversible || allowIrreversible)
  }

  lemma NoFaultIsAdmission(validators: map<string, Validator>, s: PolicySpec)
    ensures Admitted(validators, s) <==>
            forall e :: !TimingFault(s, e) && !ActionFault(validators, s.actions, s.allowIrreversible, e)
  {
    if forall e :: !TimingFault(s, e) && !ActionFault(validators, s.actions, s.allowIrreversible, e) {
      assert !TimingFault(s, SourceNotSupported) && !TimingFault(s, DurationOutOfBounds) && !TimingFault(s, PollIntervalOutOfBounds);
      assert !TimingFault(s, CooldownOutOfBounds) && !TimingFault(s, TimeoutOutOfBounds);
      ActionsWithoutFault(validators, s);
    }
  }

  lemma ActionsWithoutFault(validators: map<string, Validator>, s: PolicySpec)
    requires forall e :: !ActionFault(validators, s.actions, s.allowIrreversible, e)
    ensures OneGateOnly(s.actions)
    ensures forall i :: 0 <= i < |s.actions| ==> PluginAdmitted(validators, s.actions[i], s.allowIrreversible)
  {
    forall i, j | 0 <= i < j < |s.actions|
      ensures !(s.actions[i].requiresApproval && s.actions[j].requiresApproval)
    {
      var g := GateOf(s.actions);
      if s.actions[i].requiresApproval && s.actions[j].requiresApproval {
        assert 0 <= g <= i;
        assert ActionFault(validators, s.actions, s.allowIrreversible, SecondGate(j, g));
      }
    }
    forall i: nat | i < |s.actions|
      ensures PluginAdmitted(validators, s.actions[i], s.allowIrreversible)
    {
      assert !ActionFault(validators, s.actions, s.allowIrreversible, UnknownPlugin(i));
      assert !ActionFault(validators, s.actions, s.allowIrreversible, ParamsRefused(i));
      assert !ActionFault(validators, s.actions, s.allowIrreversible, IrreversiblePlugin(i));
    }
  }

  /** The half an approver releases holds no further gate. */
  lemma {:induction false} HeldHalfHasNoOtherGate(validators: map<string, Validator>, s: PolicySpec)
    requires Admitted(validators, s)
    ensures var g := GateOf(s.actions);
            g >= 0 ==> forall i :: 0 <= i < |s.actions| && i != g ==> !s.actions[i].requiresApproval
  {
    var g := GateOf(s.actions);
    if g >= 0 {
      forall i | 0 <= i < |s.actions| && i != g
        ensures !s.actions[i].requiresApproval
      {
        assert i < g || g < i;
      }
    }
  }

  // ---------------------------------------------------------------------------------------
  // The configuration the reconcilers run with
  // ---------------------------------------------------------------------------------------

  const DEFAULT_POLL_INTERVAL := 30
  const DEFAULT_COOLDOWN := 5 * 60
  const DEFAULT_MAX_TRIGGERS := 5
  const DEFAULT_MAX_RESOURCES := 10
  const DEFAULT_APPROVAL_TIMEOUT := 30 * 60

  function PluginNames(actions: seq<Action>): (names: seq<string>)
    ensures |names| == |actions| && forall i :: 0 <= i < |actions| ==> names[i] == actions[i].plugin
  {
    if actions == [] then [] else PluginNames(actions[..|actions| - 1]) + [actions[|actions| - 1].plugin]
  }

  function Resolve(s: PolicySpec, retention: int, uid: string, namespace: string, reversible: set<string>): Config {
    Config(
      if s.cooldown > 0 then s.cooldown else DEFAULT_COOLDOWN,
      s.duration,
      if s.pollInterval <= 0 then DEFAULT_POLL_INTERVAL else s.pollInterval,
      if s.maxTriggersPerHour.Some? && s.maxTriggersPerHour.value > 0 then s.maxTriggersPerHour.value else DEFAULT_MAX_TRIGGERS,
      if s.maxResources.Some? then s.maxResources.value else DEFAULT_MAX_RESOURCES,
      retention,
      if s.approvalTimeout > 0 then s.approvalTimeout else DEFAULT_APPROVAL_TIMEOUT,
      GateOf(s.actions), PluginNames(s.actions), uid, namespace, reversible)
  }

  /** An admitted policy gives the reconcilers a configuration that meets the hypotheses of the
      protocol's theorems, whatever it leaves to the defaults. */
  lemma {:induction false} AdmittedConfigIsValid(validators: map<string, Validator>, s: PolicySpec, retention: int, uid: string,
                                                 namespace: string, reversible: set<string>)
    requires Admitted(validators, s)
    ensures var cfg := Resolve(s, retention, uid, namespace, reversible);
            && ValidConfig(cfg) && 0 < cfg.duration && 0 < cfg.maxPerHour
            && cfg.duration == s.duration && cfg.cooldown == (if s.cooldown == 0 then 300 else s.cooldown)
            && cfg.pollInterval == (if s.pollInterval == 0 then 30 else s.pollInterval)
            && cfg.approvalTimeout == (if s.approvalTimeout == 0 then 1800 else s.approvalTimeout)
            && cfg.maxPerHour == (if s.maxTriggersPerHour.Some? && 0 < s.maxTriggersPerHour.value then s.maxTriggersPerHour.value else 5)
            && cfg.maxResources == (if s.maxResources.Some? then s.maxResources.value else 10)
            && MIN_COOLDOWN <= cfg.cooldown <= MAX_COOLDOWN
            && MIN_POLL_INTERVAL <= cfg.pollInterval <= MAX_POLL_INTERVAL
            && MIN_APPROVAL_TIMEOUT <= cfg.approvalTimeout <= MAX_APPROVAL_TIMEOUT
            && (cfg.gate >= 0 ==> s.actions[cfg.gate].requiresApproval && HeldPlugins(cfg) == PluginNames(s.actions)[cfg.gate..])
  {
  }

  // ---------------------------------------------------------------------------------------
  // What admission buys a later revert
  // ---------------------------------------------------------------------------------------

  /** The validators speak of the plugins the executor runs. */
  ghost predicate Describe<S(!new), D(!new)>(validators: map<string, Validator>, reg: Registry<S, D>) {
    forall name :: name in validators ==> name in reg && reg[name].reversible == validators[name].reversible
  }

  /** A policy admitted without the irreversibility opt-out, over plugins that meet the undo law:
      whatever its two halves did over any targets, one revert of their record brings the cluster
      back to the state before the trigger, if no failure has rolled a part of it back or the plugins
      bear being reversed again. */
  lemma AdmittedTriggerReverts<S(!new), D(!new)>(
      validators: map<string, Validator>, spec: PolicySpec, p: Pipeline<S, D>, targets: seq<Target>, s: S)
    requires Admitted(validators, spec) && !spec.allowIrreversible && p.actions == spec.actions
    requires Lawful(p.registry) && Describe(validators, p.registry)
    requires NothingRolledBack(p, targets, Split(spec.actions), s) || Replayable(p.registry)
    ensures AfterRevert(p, targets, Split(spec.actions), s) == s
  {
    forall i | 0 <= i < |p.actions|
      ensures p.actions[i].plugin in ReversibleNames(p.registry)
    {
      assert PluginAdmitted(validators, spec.actions[i], false);
    }
    ReversibleTriggerReverts(p, targets, Split(spec.actions), s);
  }

  /** Where a trigger stops: at the gate, or after the last action. */
  function Split(actions: seq<Action>): nat {
    if GateOf(actions) >= 0 then GateOf(actions) else |actions|
  }
}
