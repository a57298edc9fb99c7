/**
 The audit reconciler in its own form (internal/controller/actionaudit_controller.go): one
 reconcile of one record over the shared store and the executor, with everybody else acting
 between its calls. It is a run of the protocol, call by call.
 */
module AuditReconciler {
  import opened Common
  import opened Executor
  import opened UndoLaw
  import opened Ranges
  import opened AuditRecord
  import opened ApprovalApi
  import opened ApprovalWebhook
  import opened Protocol
  import opened GateInvariant
  import opened ObjectStore
  import RunReverts

  /** What reading the policy of an approved gate gives. */
  datatype Lookup = LookupFailed | NotFound | Present(uid: string)

  /** What one reconcile meets: the answers of the API server to its calls, and what others do before
      each of its eight calls. */
  datatype Answers = Answers(
    policyOk: bool, deleteOk: bool, revertOk: bool, lookup: Lookup, specOk: bool, statusOk: bool,
    policyReadOk: bool, cooldownOk: bool, others: seq<seq<Event>>)

  /** What a reconcile brings about: the answer about the policy, the held half's results, when the
      decision was dated, and the outcomes of a revert. */
  datatype Effects = Effects(answer: PolicyAnswer, results: seq<Result<string>>, d: int, reverts: seq<RevertResult>)

  const NOTHING := Effects(Found, [], 0, [])

  /** The steps of one reconcile between everybody else's; those it does not get to do not apply. */
  ghost function Steps(id: Id, a: Answers, e: Effects): seq<Event>
    requires |a.others| == 8
  {
    a.others[0] + [AuditRead(id)] + FromDecide(id, a, e)
  }

  ghost function FromDecide(id: Id, a: Answers, e: Effects): seq<Event>
    requires |a.others| == 8
  {
    a.others[1] + [AuditDecide(id, a.policyOk, a.deleteOk)] + FromReverted(id, a, e)
  }

  ghost function FromReverted(id: Id, a: Answers, e: Effects): seq<Event>
    requires |a.others| == 8
  {
    a.others[2] + [AuditWriteReverted(id, a.revertOk)] + FromRelease(id, a, e)
  }

  ghost function FromRelease(id: Id, a: Answers, e: Effects): seq<Event>
    requires |a.others| == 8
  {
    a.others[3] + [AuditRelease(id, e.answer, e.results)] + FromSpec(id, a, e.d)
  }

  ghost function FromSpec(id: Id, a: Answers, d: int): seq<Event>
    requires |a.others| == 8
  {
    a.others[4] + [AuditWriteSpec(id, a.specOk)] + FromStatus(id, a, d)
  }

  ghost function FromStatus(id: Id, a: Answers, d: int): seq<Event>
    requires |a.others| == 8
  {
    a.others[5] + [AuditWriteStatus(id, d, a.statusOk)] + FromPolicy(id, a)
  }

  ghost function FromPolicy(id: Id, a: Answers): seq<Event>
    requires |a.others| == 8
  {
    a.others[6] + [AuditReadPolicy(id, a.policyReadOk)] + FromCooldown(id, a)
  }

  ghost function FromCooldown(id: Id, a: Answers): seq<Event>
    requires |a.others| == 8
  {
    a.others[7] + [AuditCooldown(id, a.cooldownOk)]
  }

  lemma Chained(t: seq<Event>, others: seq<Event>, e: Event, rest: seq<Event>)
    ensures t + others + [e] + rest == t + (others + [e] + rest)
  {
  }

  /** Where the decision leaves the reconcile. */
  lemma DecideOutcome(cfg: Config, w: World, id: Id, base: Stored, policyOk: bool, deleteOk: bool)
    requires Safe(cfg, w) && id in w.apcs && w.apcs[id] == ADecide(base)
    ensures var w' := Next(cfg, w, AuditDecide(id, policyOk, deleteOk));
            var retention := if policyOk then cfg.retention else DEFAULT_RETENTION;
            var resolved := Protocol.ResolveGate(w.now, base);
            && w'.now == w.now
            && if base.created + retention - w.now <= 0 then id !in w'.apcs
               else if base.audit.status.phase == Pending then
                 if resolved.Some? then id in w'.apcs && w'.apcs[id] == resolved.value else id !in w'.apcs
               else if base.audit.spec.revertRequested && !base.audit.status.reverted then
                 id in w'.apcs && w'.apcs[id] == AReverted(base)
               else id !in w'.apcs
  {
    assert Safe1(cfg, w, id);
  }

  /** Whatever became of the write, a revert or a cooldown's start ends the reconcile. */
  lemma LastCallEnds(cfg: Config, w: World, e: Event, id: Id)
    requires id in w.apcs
    requires (w.apcs[id].AReverted? && e.AuditWriteReverted? && e.id == id) || (w.apcs[id].ACool? && e.AuditCooldown? && e.id == id)
    ensures id !in Next(cfg, w, e).apcs
  {
  }

  /** The gate a release is at lies inside the pipeline. */
  lemma GateWithinPipeline(cfg: Config, w: World, id: Id)
    requires Safe(cfg, w) && id in w.apcs && w.apcs[id].ARelease? && w.apcs[id].base.audit.spec.gate.Some?
    ensures w.apcs[id].base.audit.spec.gate.value.actionIndex == cfg.gate && 0 <= cfg.gate < |cfg.plugins|
  {
    assert Safe1(cfg, w, id);
  }

  /** A step that an ended reconcile does not make. */
  predicate Later(e: Event, id: Id) {
    ByAuditReconciler(e) && e.id == id && !e.AuditRead?
  }

  lemma OverPasses(cfg: Config, w: World, e: Event, id: Id)
    requires id !in w.apcs && Later(e, id)
    ensures Next(cfg, w, e) == w
  {
  }

  lemma ResolvingNeverReverts(now: int, base: Stored)
    ensures var resolved := Protocol.ResolveGate(now, base);
            resolved.Some? ==> !resolved.value.AReverted?
  {
  }

  class Reconciler<S(!new)> {
    const store: Store
    const cluster: Cluster<S, string>
    const registry: Registry<S, string>
    const actions: seq<Action>

    constructor (store: Store, cluster: Cluster<S, string>, registry: Registry<S, string>, actions: seq<Action>)
      ensures this.store == store && this.cluster == cluster && this.registry == registry && this.actions == actions
    {
      this.store, this.cluster, this.registry, this.actions := store, cluster, registry, actions;
    }

    ghost predicate Valid()
      reads store
    {
      store.Valid() && store.cfg.reversible == ReversibleNames(registry)
      && |store.cfg.plugins| == |actions| && forall i :: 0 <= i < |actions| ==> store.cfg.plugins[i] == actions[i].plugin
    }

    ghost predicate ForeignFrom(a: Answers, id: Id, k: nat) {
      |a.others| == 8 && forall i :: k <= i < 8 ==> ForeignToAudit(a.others[i], id)
    }

    /** No reconcile of the record is under way any more. */
    ghost predicate Over(id: Id)
      reads store
    {
      Valid() && id !in store.world.apcs
    }

    // -----------------------------------------------------------------------------------
    // Ends: a reconcile that is over makes no further call
    // -----------------------------------------------------------------------------------

    method Pass(id: Id, others: seq<Event>, e: Event)
      requires Over(id) && ForeignToAudit(others, id) && Later(e, id)
      modifies store
      ensures Over(id) && store.trace == old(store.trace) + others + [e]
    {
      store.OthersBeforeAuditCall(others, id);
      OverPasses(store.cfg, store.world, e, id);
      store.Skip(e);
    }

    method EndBeforeCooldown(id: Id, a: Answers)
      requires Over(id) && ForeignFrom(a, id, 7)
      modifies store
      ensures Over(id) && store.trace == old(store.trace) + FromCooldown(id, a)
    {
      Pass(id, a.others[7], AuditCooldown(id, a.cooldownOk));
      assert store.trace == old(store.trace) + FromCooldown(id, a);
    }

    method EndBeforePolicy(id: Id, a: Answers)
      requires Over(id) && ForeignFrom(a, id, 6)
      modifies store
      ensures Over(id) && store.trace == old(store.trace) + FromPolicy(id, a)
    {
      Chained(store.trace, a.others[6], AuditReadPolicy(id, a.policyReadOk), FromCooldown(id, a));
      Pass(id, a.others[6], AuditReadPolicy(id, a.policyReadOk));
      EndBeforeCooldown(id, a);
    }

    method EndBeforeStatus(id: Id, a: Answers, d: int)
      requires Over(id) && ForeignFrom(a, id, 5)
      modifies store
      ensures Over(id) && store.trace == old(store.trace) + FromStatus(id, a, d)
    {
      Chained(store.trace, a.others[5], AuditWriteStatus(id, d, a.statusOk), FromPolicy(id, a));
      Pass(id, a.others[5], AuditWriteStatus(id, d, a.statusOk));
      EndBeforePolicy(id, a);
    }

    method EndBeforeSpec(id: Id, a: Answers)
      requires Over(id) && ForeignFrom(a, id, 4)
      modifies store
      ensures Over(id) && store.trace == old(store.trace) + FromSpec(id, a, 0)
    {
      Chained(store.trace, a.others[4], AuditWriteSpec(id, a.specOk), FromStatus(id, a, 0));
      Pass(id, a.others[4], AuditWriteSpec(id, a.specOk));
      EndBeforeStatus(id, a, 0);
    }

    method EndBeforeRelease(id: Id, a: Answers, ghost e: Effects)
      requires Over(id) && ForeignFrom(a, id, 3) && e == NOTHING.(reverts := e.reverts)
      modifies store
      ensures Over(id) && store.trace == old(store.trace) + FromRelease(id, a, e)
    {
      Chained(store.trace, a.others[3], AuditRelease(id, Found, []), FromSpec(id, a, 0));
      Pass(id, a.others[3], AuditRelease(id, Found, []));
      EndBeforeSpec(id, a);
    }

    method EndBeforeReverted(id: Id, a: Answers)
      requires Over(id) && ForeignFrom(a, id, 2)
      modifies store
      ensures Over(id) && store.trace == old(store.trace) + FromReverted(id, a, NOTHING)
    {
      Chained(store.trace, a.others[2], AuditWriteReverted(id, a.revertOk), FromRelease(id, a, NOTHING));
      Pass(id, a.others[2], AuditWriteReverted(id, a.revertOk));
      EndBeforeRelease(id, a, NOTHING);
    }

    // -----------------------------------------------------------------------------------
    // Calls
    // -----------------------------------------------------------------------------------

    /** Update of the record's spec: allowed only with the content the protocol writes here. */
    method UpdateSpec(id: Id, base: Stored, spec: AuditSpec, a: Answers) returns (landed: bool)
      requires Valid() && ForeignFrom(a, id, 4)
      requires id in store.world.apcs && store.world.apcs[id].ASpec?
      requires store.world.apcs[id].base == base && store.world.apcs[id].spec == spec
      modifies store
      ensures Valid() && store.trace == old(store.trace) + a.others[4] + [AuditWriteSpec(id, a.specOk)]
      ensures landed ==>
                && id in store.world.apcs && store.world.apcs[id].AStatus? && id in store.world.audits
                && store.world.apcs[id] == AStatus(store.world.audits[id], old(store.world.apcs[id]).phase, store.world.now,
                                                   old(store.world.apcs[id]).policy, |spec.actions| > |base.audit.spec.actions|)
                && store.world.audits[id].audit.spec == spec
      ensures !landed ==> Over(id)
    {
      store.OthersBeforeAuditCall(a.others[4], id);
      landed := Lands(store.world, id, base.version, a.specOk) && Handle(store.world.audits[id].audit, spec, OPERATOR, store.world.now) == Allowed;
      store.Step(AuditWriteSpec(id, a.specOk));
    }

    /** Update of the record's status. */
    method UpdateStatus(id: Id, base: Stored, phase: Phase, d: int, a: Answers) returns (landed: bool)
      requires Valid() && ForeignFrom(a, id, 5)
      requires id in store.world.apcs && store.world.apcs[id].AStatus?
      requires store.world.apcs[id].base == base && store.world.apcs[id].phase == phase
      requires store.world.apcs[id].since <= d <= store.world.now
      modifies store
      ensures Valid() && store.trace == old(store.trace) + a.others[5] + [AuditWriteStatus(id, d, a.statusOk)]
      ensures landed ==>
                && id in store.world.audits && store.world.audits[id].audit.status.phase == phase && id in store.world.apcs
                && store.world.apcs[id] == if old(store.world.apcs[id]).policy.Some? then ACool(old(store.world.apcs[id]).policy.value, d) else AReadPolicy(d)
      ensures !landed ==> Over(id)
    {
      store.OthersBeforeAuditCall(a.others[5], id);
      landed := Lands(store.world, id, base.version, a.statusOk);
      store.Step(AuditWriteStatus(id, d, a.statusOk));
    }

    /** startCooldown: the policy as it was read, with its reference dropped and its cooldown started. */
    method StartCooldown(id: Id, policy: Policy, d: int, a: Answers)
      requires Valid() && ForeignFrom(a, id, 7)
      requires id in store.world.apcs && store.world.apcs[id] == ACool(policy, d)
      modifies store
      ensures Over(id) && store.trace == old(store.trace) + FromCooldown(id, a)
      ensures var found := Run(store.cfg, old(store.world), a.others[7]).policy;
              store.world.policy ==
              if a.cooldownOk && found.version == policy.version then Policy(policy.version + 1, Some(d), None) else found
    {
      store.OthersBeforeAuditCall(a.others[7], id);
      var status := policy.(lastTriggeredAt := Some(d), pendingGateRef := None);
      ghost var landed := a.cooldownOk && policy.version == store.world.policy.version;
      LastCallEnds(store.cfg, store.world, AuditCooldown(id, a.cooldownOk), id);
      store.Step(AuditCooldown(id, a.cooldownOk));
      assert landed ==> store.world.policy == status.(version := policy.version + 1);
      assert store.trace == old(store.trace) + FromCooldown(id, a);
    }

    // -----------------------------------------------------------------------------------
    // closeGate
    // -----------------------------------------------------------------------------------

    /** The held actions as Skipped records behind the ones there are. */
    method AppendSkipped(recs: seq<Record>, plugins: seq<string>, closing: Closing) returns (appended: seq<Record>)
      ensures appended == recs + SkippedRecords(|recs|, plugins, closing)
      ensures |appended| == |recs| + |plugins| && appended[..|recs|] == recs
      ensures forall i :: 0 <= i < |plugins| ==>
                var rec := appended[|recs| + i];
                && rec.index == |recs| + i && rec.plugin == plugins[i] && rec.status == Skipped && rec.message == NotRun(closing)
                && !rec.reversible && rec.details == None && rec.target == Target("", "", "", "")
    {
      appended := recs;
      for i := 0 to |plugins|
        invariant appended == recs + SkippedRecords(|recs|, plugins[..i], closing)
      {
        assert plugins[..i + 1][..i] == plugins[..i];
        appended := appended + [ActionRecord(|recs| + i, plugins[i], Target("", "", "", ""), Skipped, NotRun(closing), false, None)];
      }
      assert plugins[..|plugins|] == plugins;
    }

    /** closeGate up to its status write. `before` is when the gate was found to be over. */
    method RecordSkipped(id: Id, base: Stored, phase: Phase, closing: Closing, a: Answers, ghost before: int)
        returns (latest: Stored, ok: bool)
      requires Valid() && ForeignFrom(a, id, 4) && before <= store.world.now
      requires id in store.world.apcs && store.world.apcs[id] == CloseGate(before, base, phase, closing)
      modifies store
      ensures Valid() && store.trace == old(store.trace) + a.others[4] + [AuditWriteSpec(id, a.specOk)]
      ensures ok ==>
                && id in store.world.apcs && store.world.apcs[id].AStatus? && store.world.apcs[id].base == latest
                && store.world.apcs[id].phase == phase && store.world.apcs[id].policy == None
                && store.world.apcs[id].since <= store.world.now
      ensures !ok ==> Over(id)
    {
      latest := base;
      var spec := base.audit.spec;
      if spec.gate.Some? && |spec.gate.value.pendingPlugins| > 0 {
        var recs := AppendSkipped(spec.actions, spec.gate.value.pendingPlugins, closing);
        ok := UpdateSpec(id, base, spec.(actions := recs), a);
        if ok {
          latest := store.world.audits[id];
        }
      } else {
        ok := true;
        store.OthersBeforeAuditCall(a.others[4], id);
        store.Skip(AuditWriteSpec(id, a.specOk));
      }
    }

    /** closeGate */
    method Close(id: Id, base: Stored, phase: Phase, closing: Closing, a: Answers, ghost before: int) returns (d: int)
      requires Valid() && ForeignFrom(a, id, 4) && before <= store.world.now
      requires id in store.world.apcs && store.world.apcs[id] == CloseGate(before, base, phase, closing)
      modifies store
      ensures Over(id) && store.trace == old(store.trace) + FromSpec(id, a, d)
    {
      var latest, ok := RecordSkipped(id, base, phase, closing, a, before);
      ghost var t := store.trace;
      d := store.world.now;
      Chained(old(store.trace), a.others[4], AuditWriteSpec(id, a.specOk), FromStatus(id, a, d));
      if !ok {
        EndBeforeStatus(id, a, d);
        return;
      }
      Chained(t, a.others[5], AuditWriteStatus(id, d, a.statusOk), FromPolicy(id, a));
      ok := UpdateStatus(id, latest, phase, d, a);
      if ok {
        CoolAfterClosing(id, d, a);
      } else {
        EndBeforePolicy(id, a);
      }
    }

    /** A refused gate still starts the cooldown, if the policy can be read. */
    method CoolAfterClosing(id: Id, d: int, a: Answers)
      requires Valid() && ForeignFrom(a, id, 6)
      requires id in store.world.apcs && store.world.apcs[id] == AReadPolicy(d)
      modifies store
      ensures Over(id) && store.trace == old(store.trace) + FromPolicy(id, a)
    {
      Chained(store.trace, a.others[6], AuditReadPolicy(id, a.policyReadOk), FromCooldown(id, a));
      store.OthersBeforeAuditCall(a.others[6], id);
      var policy := store.world.policy;
      store.Step(AuditReadPolicy(id, a.policyReadOk));
      if a.policyReadOk {
        StartCooldown(id, policy, d, a);
      } else {
        EndBeforeCooldown(id, a);
      }
    }

    /** A call the reconcile does not make on its way. */
    method PassBy(id: Id, others: seq<Event>, e: Event)
      requires Valid() && ForeignToAudit(others, id) && id in store.world.apcs && NotAt(store.world.apcs[id], e, id)
      modifies store
      ensures Valid() && store.trace == old(store.trace) + others + [e]
      ensures id in store.world.apcs && store.world.apcs[id] == old(store.world.apcs[id]) && old(store.world.now) <= store.world.now
    {
      store.OthersBeforeAuditCall(others, id);
      NotAtPasses(store.cfg, store.world, e, id);
      store.Skip(e);
    }

    // -----------------------------------------------------------------------------------
    // releaseGate
    // -----------------------------------------------------------------------------------

    /** What the held half does over the targets recorded on the gate. */
    ghost function HeldHalf(spec: AuditSpec, s: S): RunOutcome<S, string>
      requires spec.gate.Some?
    {
      RunTargets(Pipeline(registry, actions, Target("", "", "", ""), spec.metricValue),
                 EffectiveTargets(spec.gate.value.targets, store.cfg.namespace), spec.gate.value.actionIndex, |actions|, s)
    }

    /** A half that starts with the action at the gate's index, on the first recorded target, or on the
        namespace if none was recorded. */
    ghost predicate FromGateOn(spec: AuditSpec, s: S, results: seq<Result<string>>)
      requires spec.gate.Some?
    {
      var gate := spec.gate.value;
      var targets := if gate.targets == [] then [Target("", "", "", store.cfg.namespace)] else gate.targets;
      && gate.actionIndex < |actions| && results != []
      && SameExecution(results[0], RunOne(registry, actions[gate.actionIndex], targets[0], spec.metricValue, s).result)
      && |results| <= |targets| * (|actions| - gate.actionIndex)
    }

    lemma {:induction false} HeldHalfStarts(spec: AuditSpec, s: S)
      requires spec.gate.Some? && spec.gate.value.actionIndex < |actions|
      ensures FromGateOn(spec, s, HeldHalf(spec, s).results)
    {
      var gate := spec.gate.value;
      var p := Pipeline(registry, actions, Target("", "", "", ""), spec.metricValue);
      var targets := EffectiveTargets(gate.targets, store.cfg.namespace);
      EachTargetStarts(p, targets, gate.actionIndex, |actions|, s, 0);
      assert targets[..0] == [];
      RangeBounded(p, targets, gate.actionIndex, |actions|, s);
    }

    method RunHeld(spec: AuditSpec) returns (results: seq<Result<string>>)
      requires spec.gate.Some? && spec.gate.value.actionIndex < |actions|
      modifies cluster
      ensures results == HeldHalf(spec, old(cluster.state)).results && cluster.state == HeldHalf(spec, old(cluster.state)).state
      ensures Confined(results, EffectiveTargets(spec.gate.value.targets, store.cfg.namespace))
      ensures FromGateOn(spec, old(cluster.state), results)
    {
      HeldHalfStarts(spec, cluster.state);
      var gate := spec.gate.value;
      var targets := gate.targets;
      if |targets| == 0 {
        targets := [Target("", "", "", store.cfg.namespace)];
      }
      var p := Pipeline(registry, actions, Target("", "", "", ""), spec.metricValue);
      TargetsConfined(p, targets, gate.actionIndex, |actions|, cluster.state);
      var err;
      results, err := RunEach(p, cluster, targets, gate.actionIndex, |actions|);
    }

    /** The writes of a release: the records of the held actions, then the phase, then the cooldown. */
    method RecordRelease(id: Id, base: Stored, released: AuditSpec, policy: Policy, a: Answers) returns (d: int)
      requires Valid() && ForeignFrom(a, id, 4)
      requires id in store.world.apcs && store.world.apcs[id] == ASpec(base, released, Approved, Some(policy))
      modifies store
      ensures Over(id) && store.trace == old(store.trace) + FromSpec(id, a, d)
    {
      var ok := UpdateSpec(id, base, released, a);
      d := store.world.now;
      Chained(old(store.trace), a.others[4], AuditWriteSpec(id, a.specOk), FromStatus(id, a, d));
      if ok {
        PhaseAndCooldown(id, store.world.audits[id], policy, d, a);
      } else {
        EndBeforeStatus(id, a, d);
      }
    }

    method PhaseAndCooldown(id: Id, latest: Stored, policy: Policy, d: int, a: Answers)
      requires Valid() && ForeignFrom(a, id, 5)
      requires id in store.world.apcs && store.world.apcs[id].AStatus? && store.world.apcs[id].base == latest
      requires store.world.apcs[id].phase == Approved && store.world.apcs[id].policy == Some(policy)
      requires store.world.apcs[id].since <= d <= store.world.now
      modifies store
      ensures Over(id) && store.trace == old(store.trace) + FromStatus(id, a, d)
    {
      Chained(store.trace, a.others[5], AuditWriteStatus(id, d, a.statusOk), FromPolicy(id, a));
      var ok := UpdateStatus(id, latest, Approved, d, a);
      if ok {
        Chained(store.trace, a.others[6], AuditReadPolicy(id, a.policyReadOk), FromCooldown(id, a));
        PassBy(id, a.others[6], AuditReadPolicy(id, a.policyReadOk));
        StartCooldown(id, policy, d, a);
      } else {
        EndBeforePolicy(id, a);
      }
    }

    function AnswerFor(lookup: Lookup, policyUid: string): PolicyAnswer {
      match lookup
      case LookupFailed => ReadError
      case NotFound => Gone
      case Present(uid) => if policyUid != "" && uid != policyUid then Replaced else Found
    }

    /** The step in which the policy was read and, if it is the one, the held half has run. */
    method AnswerRelease(id: Id, base: Stored, answer: PolicyAnswer, results: seq<Result<string>>)
      requires Valid()
      requires id in store.world.apcs && store.world.apcs[id] == ARelease(base) && base.audit.spec.gate.Some?
      requires Confined(results, EffectiveTargets(base.audit.spec.gate.value.targets, store.cfg.namespace))
      modifies store
      ensures Valid() && store.trace == old(store.trace) + [AuditRelease(id, answer, results)]
      ensures store.world.policy == old(store.world).policy && store.world.now == old(store.world).now
      ensures answer == ReadError ==> Over(id)
      ensures answer != ReadError ==>
                id in store.world.apcs
                && store.world.apcs[id] ==
                     match answer
                     case Gone => CloseGate(store.world.now, base, Denied, PolicyGone)
                     case Replaced => CloseGate(store.world.now, base, Denied, PolicyReplaced)
                     case _ =>
                       var spec := base.audit.spec;
                       ASpec(base, spec.(actions := spec.actions + ToRecords(store.cfg.reversible, |spec.actions|, results)), Approved,
                             Some(store.world.policy))
    {
      RunKeepsSafe(store.cfg, store.start, store.trace);
      assert Safe1(store.cfg, store.world, id);
      store.Step(AuditRelease(id, answer, results));
    }

    /** releaseGate */
    method Release(id: Id, base: Stored, a: Answers) returns (e: Effects)
      requires Valid() && ForeignFrom(a, id, 3)
      requires id in store.world.apcs && store.world.apcs[id] == ARelease(base) && base.audit.spec.gate.Some?
      modifies store, cluster
      ensures Over(id) && store.trace == old(store.trace) + FromRelease(id, a, e)
      ensures e.answer == AnswerFor(a.lookup, base.audit.spec.policyUid) && e.reverts == []
      ensures if e.answer == Found then
                e.results == HeldHalf(base.audit.spec, old(cluster.state)).results
                && cluster.state == HeldHalf(base.audit.spec, old(cluster.state)).state
              else e.results == [] && cluster.state == old(cluster.state)
      ensures Released(id, base, a, Run(store.cfg, old(store.world), a.others[3]), old(cluster.state), e, cluster.state)
    {
      store.OthersBeforeAuditCall(a.others[3], id);
      ghost var at := store.world;
      var policy, spec := store.world.policy, base.audit.spec;
      RunKeepsSafe(store.cfg, store.start, store.trace);
      e := NOTHING.(answer := AnswerFor(a.lookup, spec.policyUid));
      if e.answer == Found {
        GateWithinPipeline(store.cfg, store.world, id);
        var results := RunHeld(spec);
        e := e.(results := results);
      }
      StepOfRelease(id, base, at, old(cluster.state), e);
      AnswerRelease(id, base, e.answer, e.results);
      var d := WriteRelease(id, base, e.answer, e.results, policy, a);
      e := e.(d := d);
      Chained(old(store.trace), a.others[3], AuditRelease(id, e.answer, e.results), FromSpec(id, a, e.d));
    }

    /** The writes that follow, or closeGate. */
    method WriteRelease(id: Id, base: Stored, answer: PolicyAnswer, results: seq<Result<string>>, policy: Policy, a: Answers) returns (d: int)
      requires Valid() && ForeignFrom(a, id, 4) && base.audit.spec.gate.Some?
      requires answer == ReadError ==> Over(id)
      requires answer != ReadError ==>
                 id in store.world.apcs
                 && store.world.apcs[id] ==
                      match answer
                      case Gone => CloseGate(store.world.now, base, Denied, PolicyGone)
                      case Replaced => CloseGate(store.world.now, base, Denied, PolicyReplaced)
                      case _ =>
                        var spec := base.audit.spec;
                        ASpec(base, spec.(actions := spec.actions + ToRecords(store.cfg.reversible, |spec.actions|, results)), Approved, Some(policy))
      modifies store
      ensures Over(id) && store.trace == old(store.trace) + FromSpec(id, a, d)
    {
      d := 0;
      match answer {
        case ReadError =>
          EndBeforeSpec(id, a);
        case Gone =>
          d := Close(id, base, Denied, PolicyGone, a, store.world.now);
        case Replaced =>
          d := Close(id, base, Denied, PolicyReplaced, a, store.world.now);
        case Found =>
          var recs := AppendRecords(ReversibleNames(registry), base.audit.spec.actions, results);
          d := RecordRelease(id, base, base.audit.spec.(actions := recs), policy, a);
      }
    }

    /** The release's step carries the results the pipeline yields on the cluster as it is, and leaves the
        cluster as the protocol's step does. */
    ghost predicate AsProtocol(w: World, e: Event, s: S, s': S) {
      var p := Pipeline(registry, actions, Target("", "", "", ""), "");
      RunReverts.Faithful(store.cfg, p, w, e, s) && s' == RunReverts.After(store.cfg, p, w, e, s)
    }

    lemma StepOfRelease(id: Id, base: Stored, w: World, s: S, e: Effects)
      requires Safe(store.cfg, w) && |store.cfg.plugins| == |actions|
      requires id in w.apcs && w.apcs[id] == ARelease(base) && base.audit.spec.gate.Some?
      requires e.answer == Found ==> e.results == HeldHalf(base.audit.spec, s).results
                                     && Confined(e.results, EffectiveTargets(base.audit.spec.gate.value.targets, store.cfg.namespace))
      ensures AsProtocol(w, AuditRelease(id, e.answer, e.results), s, if e.answer == Found then HeldHalf(base.audit.spec, s).state else s)
    {
      GateWithinPipeline(store.cfg, w, id);
      assert Safe1(store.cfg, w, id);
    }

    /** And so does the decision's, by which a revert replays the record. */
    lemma StepOfDecision(id: Id, base: Stored, w: World, a: Answers, s: S)
      requires Safe(store.cfg, w) && id in w.apcs && w.apcs[id] == ADecide(base)
      ensures var retention := if a.policyOk then store.cfg.retention else DEFAULT_RETENTION;
              AsProtocol(w, AuditDecide(id, a.policyOk, a.deleteOk), s,
                         if base.created + retention - w.now > 0 && base.audit.status.phase != Pending
                            && base.audit.spec.revertRequested && !base.audit.status.reverted
                         then StateReverted(registry, base.audit.spec.actions, 0, s) else s)
    {
      DecideOutcome(store.cfg, w, id, base, a.policyOk, a.deleteOk);
      if base.audit.status.phase == Pending {
        ResolvingNeverReverts(w.now, base);
      }
    }

    // -----------------------------------------------------------------------------------
    // revert, resolveGate, Reconcile
    // -----------------------------------------------------------------------------------

    /** revert: replay every record's undo, then say so. */
    method RevertRecord(id: Id, base: Stored, a: Answers) returns (e: Effects)
      requires Valid() && ForeignFrom(a, id, 2)
      requires id in store.world.apcs && store.world.apcs[id] == AReverted(base)
      modifies store, cluster
      ensures Over(id) && store.trace == old(store.trace) + FromReverted(id, a, e)
      ensures e == NOTHING.(reverts := RevertResults(registry, base.audit.spec.actions, 0, old(cluster.state)))
      ensures cluster.state == StateReverted(registry, base.audit.spec.actions, 0, old(cluster.state))
    {
      var reverts := Revert(registry, cluster, base.audit.spec.actions);
      e := NOTHING.(reverts := reverts);
      MarkReverted(id, a, e);
    }

    /** Its status write, with which the reconcile ends. */
    method MarkReverted(id: Id, a: Answers, ghost e: Effects)
      requires Valid() && ForeignFrom(a, id, 2)
      requires id in store.world.apcs && store.world.apcs[id].AReverted? && e == NOTHING.(reverts := e.reverts)
      modifies store
      ensures Over(id) && store.trace == old(store.trace) + FromReverted(id, a, e)
    {
      Chained(store.trace, a.others[2], AuditWriteReverted(id, a.revertOk), FromRelease(id, a, e));
      store.OthersBeforeAuditCall(a.others[2], id);
      LastCallEnds(store.cfg, store.world, AuditWriteReverted(id, a.revertOk), id);
      store.Step(AuditWriteReverted(id, a.revertOk));
      EndBeforeRelease(id, a, e);
    }

    /** A gate that is over without its held half: on to closeGate. */
    method CloseDecided(id: Id, base: Stored, phase: Phase, closing: Closing, a: Answers, ghost before: int) returns (e: Effects)
      requires Valid() && ForeignFrom(a, id, 2) && before <= store.world.now
      requires id in store.world.apcs && store.world.apcs[id] == CloseGate(before, base, phase, closing)
      modifies store
      ensures Over(id) && store.trace == old(store.trace) + FromReverted(id, a, e)
      ensures e == NOTHING.(d := e.d)
    {
      PassBy(id, a.others[2], AuditWriteReverted(id, a.revertOk));
      PassBy(id, a.others[3], AuditRelease(id, Found, []));
      ghost var t := store.trace;
      var d := Close(id, base, phase, closing, a, before);
      e := NOTHING.(d := d);
      Chained(old(store.trace) + a.others[2] + [AuditWriteReverted(id, a.revertOk)], a.others[3], AuditRelease(id, Found, []), FromSpec(id, a, d));
      Chained(old(store.trace), a.others[2], AuditWriteReverted(id, a.revertOk), FromRelease(id, a, e));
    }

    /** An approved gate: on to releaseGate. */
    method ReleaseDecided(id: Id, base: Stored, a: Answers) returns (e: Effects, ghost at: World)
      requires Valid() && ForeignFrom(a, id, 2)
      requires id in store.world.apcs && store.world.apcs[id] == ARelease(base) && base.audit.spec.gate.Some?
      modifies store, cluster
      ensures Over(id) && store.trace == old(store.trace) + FromReverted(id, a, e)
      ensures Released(id, base, a, at, old(cluster.state), e, cluster.state)
      ensures at == Run(store.cfg, store.start, old(store.trace) + a.others[2] + [AuditWriteReverted(id, a.revertOk)] + a.others[3])
    {
      PassBy(id, a.others[2], AuditWriteReverted(id, a.revertOk));
      at := Run(store.cfg, store.world, a.others[3]);
      RunConcat(store.cfg, store.start, store.trace, a.others[3]);
      e := Release(id, base, a);
      Chained(old(store.trace), a.others[2], AuditWriteReverted(id, a.revertOk), FromRelease(id, a, e));
    }

    /** What a release in state `at` does: the held half runs if the policy is there and is the one the gate
        was opened for, and nothing runs otherwise. */
    ghost predicate Released(id: Id, base: Stored, a: Answers, at: World, s: S, e: Effects, s': S)
      requires base.audit.spec.gate.Some?
    {
      var spec := base.audit.spec;
      && e.reverts == [] && AsProtocol(at, AuditRelease(id, e.answer, e.results), s, s')
      && (e.answer == ReadError <==> a.lookup.LookupFailed?) && (e.answer == Gone <==> a.lookup.NotFound?)
      && (e.answer == Replaced <==> a.lookup.Present? && spec.policyUid != "" && a.lookup.uid != spec.policyUid)
      && if e.answer == Found then
           e.results == HeldHalf(spec, s).results && s' == HeldHalf(spec, s).state && FromGateOn(spec, s, e.results)
         else e.results == [] && s' == s
    }

    /** What a reconcile does to the cluster, judged by the record and the state in which it decides: a
        revert replays the whole record, a release runs the held half, and nothing else runs. */
    ghost predicate Does(id: Id, base: Stored, atDecide: World, atRelease: World, a: Answers, s: S, e: Effects, s': S) {
      var audit := base.audit;
      var retention := if a.policyOk then store.cfg.retention else DEFAULT_RETENTION;
      if base.created + retention - atDecide.now <= 0 then e.results == [] && s' == s
      else if audit.status.phase == Pending && audit.spec.gate.Some? && audit.spec.gate.value.decision == Approve then
        Released(id, base, a, atRelease, s, e, s')
      else
        && AsProtocol(atDecide, AuditDecide(id, a.policyOk, a.deleteOk), s, s')
        && if audit.status.phase != Pending && audit.spec.revertRequested && !audit.status.reverted then
             e.results == [] && e.reverts == RevertResults(registry, audit.spec.actions, 0, s)
             && s' == StateReverted(registry, audit.spec.actions, 0, s)
           else e.results == [] && s' == s
    }

    /** The decision's own step, taken when no call lies between it and what follows. */
    method DecideStep(id: Id, base: Stored, a: Answers)
      requires Valid() && id in store.world.apcs && store.world.apcs[id] == ADecide(base)
      modifies store
      ensures Valid() && store.trace == old(store.trace) + [AuditDecide(id, a.policyOk, a.deleteOk)]
      ensures store.world.now == old(store.world).now
      ensures var audit := base.audit;
              var retention := if a.policyOk then store.cfg.retention else DEFAULT_RETENTION;
              var resolved := Protocol.ResolveGate(store.world.now, base);
              if base.created + retention - store.world.now <= 0 then id !in store.world.apcs
              else if audit.status.phase == Pending then
                if resolved.Some? then id in store.world.apcs && store.world.apcs[id] == resolved.value else id !in store.world.apcs
              else if audit.spec.revertRequested && !audit.status.reverted then
                id in store.world.apcs && store.world.apcs[id] == AReverted(base)
              else id !in store.world.apcs
    {
      RunKeepsSafe(store.cfg, store.start, store.trace);
      DecideOutcome(store.cfg, store.world, id, base, a.policyOk, a.deleteOk);
      store.Step(AuditDecide(id, a.policyOk, a.deleteOk));
    }

    /** resolveGate, after the decision's step: release, close, or wait. */
    method ResolveOpenGate(id: Id, base: Stored, a: Answers) returns (e: Effects, ghost at: World)
      requires Valid() && ForeignFrom(a, id, 2) && base.audit.status.phase == Pending
      requires var resolved := Protocol.ResolveGate(store.world.now, base);
               if resolved.Some? then id in store.world.apcs && store.world.apcs[id] == resolved.value else id !in store.world.apcs
      modifies store, cluster
      ensures Over(id) && store.trace == old(store.trace) + FromReverted(id, a, e)
      ensures if base.audit.spec.gate.Some? && base.audit.spec.gate.value.decision == Approve then
                && Released(id, base, a, at, old(cluster.state), e, cluster.state)
                && at == Run(store.cfg, store.start, old(store.trace) + a.others[2] + [AuditWriteReverted(id, a.revertOk)] + a.others[3])
              else e.results == [] && cluster.state == old(cluster.state)
    {
      at := store.world;
      var now, spec := store.world.now, base.audit.spec;
      if spec.gate.None? {
        e := CloseDecided(id, base, Denied, GateMissing, a, now);
        return;
      }
      var gate := spec.gate.value;
      if gate.decision == Approve {
        e, at := ReleaseDecided(id, base, a);
      } else if gate.decision == Deny {
        e := CloseDecided(id, base, Denied, DeniedByHuman(DecidedByOrUnknown(gate)), a, now);
      } else if !(now < gate.expiresAt) {
        e := CloseDecided(id, base, Expired, NotInTime, a, now);
      } else {
        EndBeforeReverted(id, a);
        e := NOTHING;
      }
    }

    /** Reconcile from the record it read on: retention first, then an open gate, then a revert. */
    method Decide(id: Id, base: Stored, a: Answers) returns (e: Effects, ghost atDecide: World, ghost atRelease: World)
      requires Valid() && ForeignFrom(a, id, 1) && id in store.world.apcs && store.world.apcs[id] == ADecide(base)
      modifies store, cluster
      ensures Over(id) && store.trace == old(store.trace) + FromDecide(id, a, e)
      ensures atDecide == Run(store.cfg, store.start, old(store.trace) + a.others[1])
      ensures atRelease == Run(store.cfg, store.start, old(store.trace) + ToRelease(id, a))
      ensures Does(id, base, atDecide, atRelease, a, old(cluster.state), e, cluster.state)
    {
      store.OthersBeforeAuditCall(a.others[1], id);
      atDecide := store.world;
      atRelease := Run(store.cfg, store.start, old(store.trace) + ToRelease(id, a));
      ToReleaseInTurn(old(store.trace), id, a);
      RunKeepsSafe(store.cfg, store.start, store.trace);
      StepOfDecision(id, base, store.world, a, cluster.state);
      var now := store.world.now;
      var retention := if a.policyOk then store.cfg.retention else DEFAULT_RETENTION;
      DecideStep(id, base, a);
      if base.created + retention - now <= 0 {
        EndBeforeReverted(id, a);
        e := NOTHING;
      } else if base.audit.status.phase == Pending {
        ghost var at;
        e, at := ResolveOpenGate(id, base, a);
      } else if base.audit.spec.revertRequested && !base.audit.status.reverted {
        e := RevertRecord(id, base, a);
      } else {
        EndBeforeReverted(id, a);
        e := NOTHING;
      }
      Chained(old(store.trace), a.others[1], AuditDecide(id, a.policyOk, a.deleteOk), FromReverted(id, a, e));
    }

    method EndBeforeDecide(id: Id, a: Answers)
      requires Over(id) && ForeignFrom(a, id, 1)
      modifies store
      ensures Over(id) && store.trace == old(store.trace) + FromDecide(id, a, NOTHING)
    {
      Chained(store.trace, a.others[1], AuditDecide(id, a.policyOk, a.deleteOk), FromReverted(id, a, NOTHING));
      Pass(id, a.others[1], AuditDecide(id, a.policyOk, a.deleteOk));
      EndBeforeReverted(id, a);
    }

    /** Reconcile: whatever others do between its calls and however the calls end, it makes exactly the
        protocol's steps, and touches the cluster exactly as the record it read asks for. */
    method Reconcile(id: Id, a: Answers)
        returns (e: Effects, ghost read: Option<Stored>, ghost atDecide: World, ghost atRelease: World)
      requires Over(id) && ForeignFrom(a, id, 0)
      modifies store, cluster
      ensures Over(id)
      ensures store.trace == old(store.trace) + Steps(id, a, e)
      ensures store.world == Run(store.cfg, old(store.world), Steps(id, a, e))
      ensures var found := Run(store.cfg, old(store.world), a.others[0]).audits;
              read == if id in found then Some(found[id]) else None
      ensures atDecide == Run(store.cfg, old(store.world), a.others[0] + [AuditRead(id)] + a.others[1])
      ensures atRelease == Run(store.cfg, old(store.world), a.others[0] + [AuditRead(id)] + ToRelease(id, a))
      ensures if read.Some? then Does(id, read.value, atDecide, atRelease, a, old(cluster.state), e, cluster.state)
              else e == NOTHING && cluster.state == old(cluster.state)
    {
      ghost var t := store.trace;
      atDecide := Run(store.cfg, store.world, a.others[0] + [AuditRead(id)] + a.others[1]);
      atRelease := Run(store.cfg, store.world, a.others[0] + [AuditRead(id)] + ToRelease(id, a));
      RunFurther(store.cfg, store.start, t, a.others[0], AuditRead(id), a.others[1]);
      RunFurther(store.cfg, store.start, t, a.others[0], AuditRead(id), ToRelease(id, a));
      store.OthersBeforeAuditCall(a.others[0], id);
      if id !in store.world.audits {
        read := None;
        store.Skip(AuditRead(id));
        EndBeforeDecide(id, a);
        e := NOTHING;
      } else {
        var base := store.world.audits[id];
        read := Some(base);
        store.Step(AuditRead(id));
        ghost var at, at';
        e, at, at' := Decide(id, base, a);
      }
      Chained(t, a.others[0], AuditRead(id), FromDecide(id, a, e));
      RunConcat(store.cfg, store.start, t, Steps(id, a, e));
    }
  }

  lemma {:induction false} RunFurther(cfg: Config, w: World, t: seq<Event>, first: seq<Event>, e: Event, second: seq<Event>)
    ensures Run(cfg, w, t + first + [e] + second) == Run(cfg, Run(cfg, w, t), first + [e] + second)
  {
    RunConcat(cfg, w, t, first + [e] + second);
    Chained(t, first, e, second);
  }

  /** From the decision to the release. */
  ghost function ToRelease(id: Id, a: Answers): seq<Event>
    requires |a.others| == 8
  {
    a.others[1] + [AuditDecide(id, a.policyOk, a.deleteOk)] + a.others[2] + [AuditWriteReverted(id, a.revertOk)] + a.others[3]
  }

  lemma ToReleaseInTurn(t: seq<Event>, id: Id, a: Answers)
    requires |a.others| == 8
    ensures t + ToRelease(id, a) ==
            t + a.others[1] + [AuditDecide(id, a.policyOk, a.deleteOk)] + a.others[2] + [AuditWriteReverted(id, a.revertOk)] + a.others[3]
  {
  }

  /** The reconcile stands elsewhere than at this call. */
  predicate NotAt(pc: AuditPc, e: Event, id: Id) {
    || (e.AuditWriteReverted? && e.id == id && !pc.AReverted?)
    || (e.AuditRelease? && e.id == id && !pc.ARelease?)
    || (e.AuditReadPolicy? && e.id == id && !pc.AReadPolicy?)
  }

  lemma NotAtPasses(cfg: Config, w: World, e: Event, id: Id)
    requires id in w.apcs && NotAt(w.apcs[id], e, id)
    ensures Next(cfg, w, e) == w
  {
  }
}
