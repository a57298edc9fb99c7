/**
 From a trigger to its revert, end to end.
 */
module RunReverts {
  import opened Common
  import opened Executor
  import opened UndoLaw
  import opened ReplayLaw
  import opened AuditRecord
  import opened RevertLaw
  import opened ApprovalApi
  import opened Protocol
  import opened GateInvariant
  import opened GateSafety
  import opened TriggerSpacing
  import opened RecordHistory
  import opened RecordResults

  // ---------------------------------------------------------------------------------------
  // Steps that touch the cluster
  // ---------------------------------------------------------------------------------------

  /** In this step the held half of a gate runs. */
  predicate Releases(cfg: Config, w: World, e: Event) {
    && e.AuditRelease? && e.id in w.apcs && w.apcs[e.id].ARelease? && w.apcs[e.id].base.audit.spec.gate.Some? && e.id in w.ledger
    && e.answer.Found? && Confined(e.results, EffectiveTargets(w.apcs[e.id].base.audit.spec.gate.value.targets, cfg.namespace))
  }

  /** In this step a reconcile replays the undo of the record it read. */
  predicate Undoes(cfg: Config, w: World, e: Event) {
    && e.AuditDecide? && e.id in w.apcs && w.apcs[e.id].ADecide?
    && e.id in Next(cfg, w, e).apcs && Next(cfg, w, e).apcs[e.id].AReverted?
  }

  // ---------------------------------------------------------------------------------------
  // What the record of one trigger holds
  // ---------------------------------------------------------------------------------------

  /** What a trigger ran: the value it saw, its targets, the results of the half that ran at once, and
      those of the half a release would run. */
  datatype Trace = Trace(value: string, targets: seq<Target>, first: seq<Result<string>>, held: seq<Result<string>>)

  /** The record reports the first half, and the held one once its results were written. */
  predicate RecordAsRun(reversible: set<string>, tr: Trace, l: Ledger, recording: bool) {
    && l.targets == tr.targets && l.last.spec.metricValue == tr.value && l.runs <= 1
    && Reports(l.last.spec.actions, reversible, if l.runs == 0 || recording then tr.first else tr.first + tr.held)
  }

  /** A reconcile in flight on it read the record as it stands, and would add the held half's results or
      none. */
  ghost predicate FlightAsRun(reversible: set<string>, tr: Trace, l: Ledger, pc: AuditPc) {
    && (HasBase(pc) ==> pc.base.audit.spec.metricValue == tr.value)
    && (pc.ADecide? ==> pc.base.audit.spec.actions == l.last.spec.actions)
    && (pc.ASpec? ==> Reports(Added(pc), reversible, if pc.phase == Approved then tr.held else []))
  }

  /** Until the record is created the reconcile carries the first half's results; from then on, while no
      attempt was lost, the record is as the halves ran. */
  ghost predicate AsRun(cfg: Config, tr: Trace, w: World, id: Id) {
    if id !in w.ledger then
      w.ppc.PCreate? ==> w.ppc.value == tr.value && w.ppc.results == tr.first && w.ppc.targets == tr.targets
    else
      w.ledger[id].lostRuns == 0 ==>
        RecordAsRun(cfg.reversible, tr, w.ledger[id], Recording(w, id))
        && (id in w.apcs ==> FlightAsRun(cfg.reversible, tr, w.ledger[id], w.apcs[id]))
  }

  /** Nothing RecordAsRun speaks of changed. */
  predicate Steady(w: World, w': World, id: Id)
    requires id in w.ledger
  {
    && id in w'.ledger && w'.ledger[id].last.spec.actions == w.ledger[id].last.spec.actions
    && w'.ledger[id].last.spec.metricValue == w.ledger[id].last.spec.metricValue
    && w'.ledger[id].targets == w.ledger[id].targets && w'.ledger[id].runs == w.ledger[id].runs
    && (Recording(w', id) <==> Recording(w, id))
  }

  lemma SteadyStaysAsRun(cfg: Config, tr: Trace, w: World, w': World, id: Id)
    requires id in w.ledger && Steady(w, w', id) && RecordAsRun(cfg.reversible, tr, w.ledger[id], Recording(w, id))
    requires id in w'.apcs ==> FlightAsRun(cfg.reversible, tr, w'.ledger[id], w'.apcs[id])
    ensures AsRun(cfg, tr, w', id)
  {
  }

  // ---------------------------------------------------------------------------------------
  // Every step keeps it
  // ---------------------------------------------------------------------------------------

  ghost predicate InvariantAt(cfg: Config, tr: Trace, w: World, id: Id) {
    && id in w.ledger && Safe1(cfg, w, id) && RecordAsRun(cfg.reversible, tr, w.ledger[id], Recording(w, id))
    && (id in w.apcs ==>
          FlightAsRun(cfg.reversible, tr, w.ledger[id], w.apcs[id]) && InFlight(w.apcs[id], w.ledger[id].last.status.phase))
  }

  lemma ClientSteady(cfg: Config, tr: Trace, w: World, e: Event)
    requires e.ClientUpdate? && InvariantAt(cfg, tr, w, e.id)
    ensures Steady(w, Next(cfg, w, e), e.id) && Next(cfg, w, e).apcs == w.apcs
  {
  }

  lemma MarkSteady(cfg: Config, tr: Trace, w: World, ok: bool, id: Id)
    requires w.ppc.PMark? && w.ppc.id == id && InvariantAt(cfg, tr, w, id)
    ensures Steady(w, PolicyMarkStep(w, ok), id) && PolicyMarkStep(w, ok).apcs == w.apcs
  {
  }

  lemma ReadAsRun(cfg: Config, tr: Trace, w: World, id: Id)
    requires InvariantAt(cfg, tr, w, id)
    ensures AsRun(cfg, tr, AuditReadStep(w, id), id)
  {
  }

  lemma {:induction false} ClosingReportsNothing(now: int, base: Stored, phase: Phase, closing: Closing, reversible: set<string>)
    ensures var pc := CloseGate(now, base, phase, closing);
            && pc.base == base && (pc.ASpec? || pc.AStatus?) && pc.phase == phase
            && (pc.ASpec? ==> Reports(Added(pc), reversible, []))
  {
    var spec := base.audit.spec;
    if spec.gate.Some? {
      var skipped := SkippedRecords(|spec.actions|, spec.gate.value.pendingPlugins, closing);
      SkippedReportNothing(|spec.actions|, spec.gate.value.pendingPlugins, closing, reversible);
      assert (spec.actions + skipped)[|spec.actions|..] == skipped;
    }
  }

  lemma ResolvingReportsNothing(now: int, base: Stored, reversible: set<string>)
    requires ResolveGate(now, base).Some?
    ensures var pc := ResolveGate(now, base).value;
            && HasBase(pc) && pc.base == base && !pc.ADecide?
            && (pc.ASpec? ==> pc.phase != Approved && Reports(Added(pc), reversible, []))
  {
    if base.audit.spec.gate.None? {
      ClosingReportsNothing(now, base, Denied, GateMissing, reversible);
    } else {
      var gate := base.audit.spec.gate.value;
      match gate.decision
      case Approve =>
      case Deny => ClosingReportsNothing(now, base, Denied, DeniedByHuman(DecidedByOrUnknown(gate)), reversible);
      case _ => ClosingReportsNothing(now, base, Expired, NotInTime, reversible);
    }
  }

  lemma DecideAsRun(cfg: Config, tr: Trace, w: World, e: Event)
    requires e.AuditDecide? && InvariantAt(cfg, tr, w, e.id) && !Undoes(cfg, w, e)
    ensures AsRun(cfg, tr, Next(cfg, w, e), e.id)
  {
    var id := e.id;
    if id in w.apcs && w.apcs[id].ADecide? {
      if ResolveGate(w.now, w.apcs[id].base).Some? {
        ResolvingReportsNothing(w.now, w.apcs[id].base, cfg.reversible);
      }
    }
  }

  lemma RefusedOutcome(cfg: Config, w: World, e: Event)
    requires e.AuditRelease? && !Releases(cfg, w, e)
    ensures var w', id := Next(cfg, w, e), e.id;
            && w'.ledger == w.ledger
            && (w' == w || (id in w.apcs && w.apcs[id].ARelease?))
            && (id in w'.apcs && w' != w ==>
                  w'.apcs[id] == CloseGate(w.now, w.apcs[id].base, Denied, PolicyGone)
                  || w'.apcs[id] == CloseGate(w.now, w.apcs[id].base, Denied, PolicyReplaced))
  {
  }

  /** A release that does not run the held half. */
  lemma RefusedReleaseAsRun(cfg: Config, tr: Trace, w: World, e: Event)
    requires e.AuditRelease? && InvariantAt(cfg, tr, w, e.id) && !Releases(cfg, w, e)
    ensures AsRun(cfg, tr, Next(cfg, w, e), e.id)
  {
    var id := e.id;
    RefusedOutcome(cfg, w, e);
    if id in w.apcs && w.apcs[id].ARelease? {
      ClosingReportsNothing(w.now, w.apcs[id].base, Denied, PolicyGone, cfg.reversible);
      ClosingReportsNothing(w.now, w.apcs[id].base, Denied, PolicyReplaced, cfg.reversible);
    }
  }

  lemma {:induction false} AddedByRelease(reversible: set<string>, base: Stored, policy: Option<Policy>, results: seq<Result<string>>)
    requires AllRan(results)
    ensures var spec := base.audit.spec;
            var released := spec.(actions := spec.actions + ToRecords(reversible, |spec.actions|, results));
            Reports(Added(ASpec(base, released, Approved, policy)), reversible, results)
  {
    var actions := base.audit.spec.actions;
    var recs := ToRecords(reversible, |actions|, results);
    RecordsReport(reversible, |actions|, results);
    assert (actions + recs)[|actions|..] == recs;
  }

  lemma ReleaseOutcomeIs(cfg: Config, w: World, e: Event)
    requires Releases(cfg, w, e)
    ensures var w', id := Next(cfg, w, e), e.id;
            var base, spec := w.apcs[id].base, w.apcs[id].base.audit.spec;
            var released := spec.(actions := spec.actions + ToRecords(cfg.reversible, |spec.actions|, e.results));
            && id in w'.apcs && w'.apcs[id] == ASpec(base, released, Approved, Some(w.policy))
            && id in w'.ledger && w'.ledger[id] == w.ledger[id].(runs := w.ledger[id].runs + 1)
  {
  }

  lemma ReleaseAsRun(cfg: Config, tr: Trace, w: World, e: Event)
    requires Releases(cfg, w, e) && InvariantAt(cfg, tr, w, e.id) && w.ledger[e.id].lostRuns == 0
    requires e.results == tr.held && AllRan(tr.held)
    ensures AsRun(cfg, tr, Next(cfg, w, e), e.id)
    ensures w.ledger[e.id].runs == 0 && e.id in Next(cfg, w, e).ledger && Next(cfg, w, e).ledger[e.id].runs == 1
  {
    AddedByRelease(cfg.reversible, w.apcs[e.id].base, Some(w.policy), e.results);
    ReleaseOutcomeIs(cfg, w, e);
  }

  /** What a landed write leaves the record reporting: nothing new, or the held half's results. */
  lemma LandedReports(reversible: set<string>, tr: Trace, l: Ledger, pc: AuditPc)
    requires pc.ASpec? && FlightAsRun(reversible, tr, l, pc) && (pc.phase == Approved ==> l.runs > 0)
    requires RecordAsRun(reversible, tr, l, pc.phase == Approved)
    ensures Reports(l.last.spec.actions + Added(pc), reversible, if l.runs == 0 then tr.first else tr.first + tr.held)
  {
    ReportsAppend(l.last.spec.actions, Added(pc), reversible, if l.runs == 0 || pc.phase == Approved then tr.first else tr.first + tr.held,
                  if pc.phase == Approved then tr.held else []);
    assert tr.first + [] == tr.first && tr.first + tr.held + [] == tr.first + tr.held;
  }

  lemma SpecLandsAsRun(cfg: Config, tr: Trace, w: World, e: Event, id: Id)
    requires Safe(cfg, w) && InvariantAt(cfg, tr, w, id) && SpecLands(w, e, id)
    ensures AsRun(cfg, tr, Next(cfg, w, e), id)
  {
    RecordingRan(cfg, w, id);
    LandedReports(cfg.reversible, tr, w.ledger[id], w.apcs[id]);
    WriteSpecLands(cfg, w, id, e.ok);
    LandedFrame(cfg, w, e, id);
  }

  /** A reconcile whose held half ran has run it. */
  lemma RecordingRan(cfg: Config, w: World, id: Id)
    requires Safe1(cfg, w, id) && id in w.ledger
    ensures Recording(w, id) ==> w.ledger[id].runs > 0
  {
  }

  lemma LandedFrame(cfg: Config, w: World, e: Event, id: Id)
    requires Safe(cfg, w) && id in w.ledger && SpecLands(w, e, id)
    ensures var w' := Next(cfg, w, e);
            && id in w'.ledger && w'.ledger[id].targets == w.ledger[id].targets
            && w'.ledger[id].last.spec.metricValue == w.ledger[id].last.spec.metricValue
            && id in w'.apcs && w'.apcs[id].AStatus? && w'.apcs[id].base.audit.spec.metricValue == w.ledger[id].last.spec.metricValue
  {
    assert Safe1(cfg, w, id);
    StepAdmitsOwnUpdate(cfg, w, id, e.ok);
  }

  /** A write that fails either loses an execution or changes nothing. */
  lemma SpecFailsAsRun(cfg: Config, tr: Trace, w: World, e: Event, id: Id)
    requires e.AuditWriteSpec? && e.id == id && InvariantAt(cfg, tr, w, id) && !SpecLands(w, e, id)
    ensures AsRun(cfg, tr, Next(cfg, w, e), id)
  {
  }

  lemma StatusAsRun(cfg: Config, tr: Trace, w: World, e: Event, id: Id)
    requires e.AuditWriteStatus? && e.id == id && InvariantAt(cfg, tr, w, id)
    ensures AsRun(cfg, tr, Next(cfg, w, e), id)
  {
  }

  lemma CooldownAsRun(cfg: Config, tr: Trace, w: World, e: Event, id: Id)
    requires (e.AuditReadPolicy? || e.AuditCooldown?) && e.id == id && InvariantAt(cfg, tr, w, id)
    ensures AsRun(cfg, tr, Next(cfg, w, e), id)
  {
  }

  lemma RevertedAsRun(cfg: Config, tr: Trace, w: World, e: Event, id: Id)
    requires e.AuditWriteReverted? && e.id == id && InvariantAt(cfg, tr, w, id)
    ensures AsRun(cfg, tr, Next(cfg, w, e), id)
  {
  }

  lemma RestartAsRun(cfg: Config, tr: Trace, w: World, id: Id)
    requires InvariantAt(cfg, tr, w, id)
    ensures AsRun(cfg, tr, Crash(w), id)
  {
  }

  lemma WriteAsRun(cfg: Config, tr: Trace, w: World, e: Event, id: Id)
    requires Safe(cfg, w) && InvariantAt(cfg, tr, w, id) && Subject(w, e) == Some(id)
    requires e.AuditWriteSpec? || e.AuditWriteStatus? || e.AuditReadPolicy? || e.AuditCooldown? || e.AuditWriteReverted?
    ensures AsRun(cfg, tr, Next(cfg, w, e), id)
  {
    match e
    case AuditWriteSpec(_, _) =>
      if SpecLands(w, e, id) {
        SpecLandsAsRun(cfg, tr, w, e, id);
      } else {
        SpecFailsAsRun(cfg, tr, w, e, id);
      }
    case AuditWriteStatus(_, _, _) => StatusAsRun(cfg, tr, w, e, id);
    case AuditWriteReverted(_, _) => RevertedAsRun(cfg, tr, w, e, id);
    case _ => CooldownAsRun(cfg, tr, w, e, id);
  }

  lemma UpdateAsRun(cfg: Config, tr: Trace, w: World, e: Event, id: Id)
    requires InvariantAt(cfg, tr, w, id) && Subject(w, e) == Some(id)
    requires e.ClientUpdate? || e.PolicyMark?
    ensures AsRun(cfg, tr, Next(cfg, w, e), id)
  {
    if e.ClientUpdate? {
      ClientSteady(cfg, tr, w, e);
    } else {
      MarkSteady(cfg, tr, w, e.ok, id);
    }
    SteadyStaysAsRun(cfg, tr, w, Next(cfg, w, e), id);
  }

  lemma SubjectAsRun(cfg: Config, tr: Trace, w: World, e: Event, id: Id)
    requires Safe(cfg, w) && InvariantAt(cfg, tr, w, id) && Subject(w, e) == Some(id) && w.ledger[id].lostRuns == 0
    requires !Undoes(cfg, w, e) && (Releases(cfg, w, e) ==> e.results == tr.held) && AllRan(tr.held)
    ensures AsRun(cfg, tr, Next(cfg, w, e), id)
  {
    match e
    case ClientUpdate(_, _, _, _, _, _, _, _) => UpdateAsRun(cfg, tr, w, e, id);
    case PolicyMark(_) => UpdateAsRun(cfg, tr, w, e, id);
    case PolicyCreate(_, _) =>
    case AuditRead(_) => ReadAsRun(cfg, tr, w, id);
    case AuditDecide(_, _, _) => DecideAsRun(cfg, tr, w, e);
    case AuditRelease(_, _, _) =>
      if Releases(cfg, w, e) {
        ReleaseAsRun(cfg, tr, w, e);
      } else {
        RefusedReleaseAsRun(cfg, tr, w, e);
      }
    case _ => WriteAsRun(cfg, tr, w, e, id);
  }

  /** A record is created with the results the reconcile carries, or not at all. */
  lemma CreatedLedger(cfg: Config, w: World, e: Event)
    requires e.PolicyCreate? && e.id !in w.ledger
    ensures var w' := Next(cfg, w, e);
            && w'.apcs == w.apcs
            && (e.id in w'.ledger ==>
                  w.ppc.PCreate? && w'.ledger[e.id] == Ledger(NewAudit(cfg, w.ppc.t, w.ppc.value, w.ppc.results, w.ppc.targets), w.ppc.targets, None, 0, 0, 0, 0))
            && (w'.ppc.PCreate? ==> w'.ppc == w.ppc)
  {
  }

  lemma {:induction false} CreateAsRun(cfg: Config, tr: Trace, w: World, e: Event, id: Id)
    requires e.PolicyCreate? && e.id == id && id !in w.ledger && AsRun(cfg, tr, w, id) && AllRan(tr.first)
    requires id !in w.apcs
    ensures AsRun(cfg, tr, Next(cfg, w, e), id)
    ensures id in Next(cfg, w, e).ledger ==> Next(cfg, w, e).ledger[id].runs == 0
  {
    RecordsReport(cfg.reversible, 0, tr.first);
    CreatedLedger(cfg, w, e);
  }

  /** Only an evaluation that triggers puts a new trigger in the reconciler's hands. */
  lemma OnlyFiringCreates(cfg: Config, w: World, e: Event)
    requires Safe(cfg, w) && !Fires(cfg, w, e)
    ensures Next(cfg, w, e).ppc.PCreate? ==> Next(cfg, w, e).ppc == w.ppc
  {
    if ByAuditReconciler(e) || e.ClientUpdate? {
      AuditSideSpares(cfg, w, e);
    } else if e.PolicyEvaluate? {
      if w.ppc.PEvaluate? {
        EvaluationOutcome(cfg, w, e.listOk, e.sample, e.matched, e.results);
      }
    }
  }

  lemma UnrecordedAsRun(cfg: Config, tr: Trace, w: World, e: Event, id: Id)
    requires Safe(cfg, w) && id !in w.ledger && AsRun(cfg, tr, w, id) && AllRan(tr.first) && !Fires(cfg, w, e)
    ensures AsRun(cfg, tr, Next(cfg, w, e), id)
    ensures id in Next(cfg, w, e).ledger ==> Next(cfg, w, e).ledger[id].runs == 0
  {
    assert Safe1(cfg, w, id);
    if e.PolicyCreate? && e.id == id {
      CreateAsRun(cfg, tr, w, e, id);
    } else {
      OnlyFiringCreates(cfg, w, e);
      StillUnrecorded(cfg, w, e, id);
    }
  }

  lemma StillUnrecorded(cfg: Config, w: World, e: Event, id: Id)
    requires Safe(cfg, w) && id !in w.ledger && !(e.PolicyCreate? && e.id == id)
    ensures id !in Next(cfg, w, e).ledger
  {
    if e.PolicyCreate? {
      OthersUntouched(cfg, w, e, id);
    } else {
      StaysUnknown(cfg, w, e, id);
    }
  }

  lemma OtherAsRun(cfg: Config, tr: Trace, w: World, w': World, id: Id)
    requires id in w.ledger && AsRun(cfg, tr, w, id) && Untouched(w, w', id)
    ensures AsRun(cfg, tr, w', id)
  {
  }

  lemma RecordedAsRun(cfg: Config, tr: Trace, w: World, e: Event, id: Id)
    requires Safe(cfg, w) && id in w.ledger && AsRun(cfg, tr, w, id) && InvariantAt(cfg, tr, w, id) && w.ledger[id].lostRuns == 0
    requires !Undoes(cfg, w, e) && (Releases(cfg, w, e) && e.id == id ==> e.results == tr.held) && AllRan(tr.held)
    ensures AsRun(cfg, tr, Next(cfg, w, e), id)
  {
    if e.Restart? {
      RestartAsRun(cfg, tr, w, id);
    } else if Subject(w, e) != Some(id) {
      OthersUntouched(cfg, w, e, id);
      OtherAsRun(cfg, tr, w, Next(cfg, w, e), id);
    } else {
      SubjectAsRun(cfg, tr, w, e, id);
    }
  }

  lemma StepAsRun(cfg: Config, tr: Trace, w: World, e: Event, id: Id)
    requires Reached(cfg, w, id) && AsRun(cfg, tr, w, id) && AllRan(tr.first) && AllRan(tr.held)
    requires !Fires(cfg, w, e) && !Undoes(cfg, w, e)
    requires Releases(cfg, w, e) && e.id == id && w.ledger[id].lostRuns == 0 ==> e.results == tr.held
    ensures AsRun(cfg, tr, Next(cfg, w, e), id)
  {
    if id !in w.ledger {
      UnrecordedAsRun(cfg, tr, w, e, id);
    } else {
      StepLosesByFailure(cfg, w, e, id);
      if w.ledger[id].lostRuns == 0 {
        AtRecord(cfg, tr, w, id);
        RecordedAsRun(cfg, tr, w, e, id);
      }
    }
  }

  // ---------------------------------------------------------------------------------------
  // How often the held half ran
  // ---------------------------------------------------------------------------------------

  lemma RunsKept(cfg: Config, w: World, e: Event, id: Id, h: History)
    requires Safe(cfg, w) && Told(w, id, h) && id in w.ledger && !(Releases(cfg, w, e) && e.id == id)
    ensures id in Next(cfg, w, e).ledger && Next(cfg, w, e).ledger[id].runs == w.ledger[id].runs
  {
    if e.Restart? {
    } else if Subject(w, e) != Some(id) {
      OthersUntouched(cfg, w, e, id);
    } else {
      match e
      case ClientUpdate(_, _, _, _, _, _, _, _) => ClientAddsNothing(cfg, w, e);
      case PolicyCreate(_, _) =>
      case PolicyMark(ok) => MarkAddsNothing(cfg, w, ok, id);
      case AuditRead(_) => ReadAddsNothing(cfg, w, id);
      case AuditDecide(_, policyOk, deleteOk) => DecideAddsNothing(cfg, w, id, policyOk, deleteOk);
      case AuditRelease(_, _, _) => RefusedOutcome(cfg, w, e);
      case AuditWriteSpec(_, ok) =>
        if SpecLands(w, e, id) {
          WriteSpecLands(cfg, w, id, ok);
        } else {
          WriteSpecFails(cfg, w, id, ok);
        }
      case AuditWriteStatus(_, d, ok) => WriteStatusAddsNothing(cfg, w, id, d, ok);
      case AuditWriteReverted(_, ok) => WriteRevertedAddsNothing(cfg, w, id, ok);
      case _ => TailAddsNothing(cfg, w, e, id);
    }
  }

  // ---------------------------------------------------------------------------------------
  // The cluster along a run
  // ---------------------------------------------------------------------------------------

  /** The registry and the pipeline the operator runs: lawful plugins, all of which can undo themselves. */
  ghost predicate Operates<S(!new)>(cfg: Config, p: Pipeline<S, string>) {
    && ValidConfig(cfg) && |cfg.plugins| == |p.actions| && cfg.reversible == ReversibleNames(p.registry) && Lawful(p.registry)
    && forall i :: 0 <= i < |p.actions| ==> p.actions[i].plugin in ReversibleNames(p.registry)
  }

  /** Where the pipeline is cut: at the gate, or at its end. */
  function Cut<S>(cfg: Config, p: Pipeline<S, string>): nat {
    if 0 <= cfg.gate <= |p.actions| then cfg.gate else |p.actions|
  }

  function FirstRun<S>(cfg: Config, p: Pipeline<S, string>, value: string, targets: seq<Target>, s: S): RunOutcome<S, string> {
    RunTargets(p.(metricValue := value), targets, 0, Cut(cfg, p), s)
  }

  function HeldRun<S>(cfg: Config, p: Pipeline<S, string>, value: string, targets: seq<Target>, s: S): RunOutcome<S, string> {
    RunTargets(p.(metricValue := value), targets, Cut(cfg, p), |p.actions|, s)
  }

  /** What a triggering evaluation acts on: the value it saw, and the targets it resolved. */
  function SeenText(e: Event): string {
    if e.PolicyEvaluate? && e.sample.Value? then e.sample.text else ""
  }

  function SeenTargets(cfg: Config, e: Event): seq<Target> {
    EffectiveTargets(if e.PolicyEvaluate? && e.matched.Some? then e.matched.value else [], cfg.namespace)
  }

  /** What it runs. */
  function FiredRun<S>(cfg: Config, p: Pipeline<S, string>, e: Event, s: S): RunOutcome<S, string> {
    FirstRun(cfg, p, SeenText(e), SeenTargets(cfg, e), s)
  }

  /** What a release runs. */
  function ReleasedRun<S>(cfg: Config, p: Pipeline<S, string>, w: World, e: Event, s: S): RunOutcome<S, string>
    requires Releases(cfg, w, e)
  {
    var spec := w.apcs[e.id].base.audit.spec;
    HeldRun(cfg, p, spec.metricValue, EffectiveTargets(spec.gate.value.targets, cfg.namespace), s)
  }

  lemma FiringEvent(cfg: Config, w: World, e: Event)
    requires Fires(cfg, w, e)
    ensures var w' := Next(cfg, w, e);
            e.PolicyEvaluate? && w'.ppc.PCreate? && w'.ppc.value == SeenText(e) && w'.ppc.results == e.results
            && w'.ppc.targets == SeenTargets(cfg, e) && w'.ledger == w.ledger
  {
  }

  /** The cluster after a step. */
  ghost function After<S>(cfg: Config, p: Pipeline<S, string>, w: World, e: Event, s: S): S {
    if Fires(cfg, w, e) then FiredRun(cfg, p, e, s).state
    else if Releases(cfg, w, e) then ReleasedRun(cfg, p, w, e, s).state
    else if Undoes(cfg, w, e) then StateReverted(p.registry, w.apcs[e.id].base.audit.spec.actions, 0, s)
    else s
  }

  /** The results a step carries are those the pipeline yields on the cluster as it is. */
  ghost predicate Faithful<S>(cfg: Config, p: Pipeline<S, string>, w: World, e: Event, s: S) {
    && (Fires(cfg, w, e) ==> e.results == FiredRun(cfg, p, e, s).results)
    && (Releases(cfg, w, e) ==> e.results == ReleasedRun(cfg, p, w, e, s).results)
  }

  ghost function ClusterAfter<S>(cfg: Config, p: Pipeline<S, string>, w: World, es: seq<Event>, s: S): S {
    if es == [] then s
    else
      var n := |es| - 1;
      After(cfg, p, Run(cfg, w, es[..n]), es[n], ClusterAfter(cfg, p, w, es[..n], s))
  }

  /** This step touches the cluster at most by the release of this record. */
  ghost predicate LeavesAlone(cfg: Config, v: World, e: Event, id: Id) {
    !Fires(cfg, v, e) && !Undoes(cfg, v, e) && (Releases(cfg, v, e) ==> e.id == id)
  }

  /** The first step triggers and is to create this record; from then on nothing else touches the cluster,
      and each half yields what the pipeline yields on the cluster as it is. */
  ghost predicate Unfolds<S>(cfg: Config, p: Pipeline<S, string>, w: World, es: seq<Event>, id: Id, s: S) {
    if |es| <= 1 then
      |es| == 1 && Fires(cfg, w, es[0]) && id !in w.ledger && Faithful(cfg, p, w, es[0], s)
    else
      var n := |es| - 1;
      && Unfolds(cfg, p, w, es[..n], id, s)
      && LeavesAlone(cfg, Run(cfg, w, es[..n]), es[n], id)
      && Faithful(cfg, p, Run(cfg, w, es[..n]), es[n], ClusterAfter(cfg, p, w, es[..n], s))
  }

  // ---------------------------------------------------------------------------------------
  // Along the run
  // ---------------------------------------------------------------------------------------

  /** What the trigger of step e ran on the cluster s, and what its release would run. */
  ghost function TraceOf<S>(cfg: Config, p: Pipeline<S, string>, e: Event, s: S): Trace {
    Trace(SeenText(e), SeenTargets(cfg, e), FiredRun(cfg, p, e, s).results, HeldAfter(cfg, p, e, s).results)
  }

  ghost function HeldAfter<S>(cfg: Config, p: Pipeline<S, string>, e: Event, s: S): RunOutcome<S, string> {
    HeldRun(cfg, p, SeenText(e), SeenTargets(cfg, e), FiredRun(cfg, p, e, s).state)
  }

  /** While no attempt was lost, the cluster is as the halves that ran left it. */
  ghost predicate ClusterAsRun<S>(w: World, id: Id, c: S, first: S, held: S) {
    if id !in w.ledger then c == first
    else w.ledger[id].lostRuns == 0 ==> c == if w.ledger[id].runs == 0 then first else held
  }

  lemma {:induction false} TraceRan<S>(cfg: Config, p: Pipeline<S, string>, e: Event, s: S)
    ensures AllRan(TraceOf(cfg, p, e, s).first) && AllRan(TraceOf(cfg, p, e, s).held)
  {
    var q := p.(metricValue := SeenText(e));
    HalfRan(q, SeenTargets(cfg, e), 0, Cut(cfg, p), s);
    HalfRan(q, SeenTargets(cfg, e), Cut(cfg, p), |p.actions|, FiredRun(cfg, p, e, s).state);
  }

  /** A release runs on what the record says, which is what the trigger saw. */
  lemma ReleaseSees(cfg: Config, tr: Trace, w: World, e: Event)
    requires Safe(cfg, w) && Releases(cfg, w, e) && InvariantAt(cfg, tr, w, e.id) && w.ledger[e.id].lostRuns == 0
    ensures w.ledger[e.id].runs == 0
    ensures var spec := w.apcs[e.id].base.audit.spec;
            spec.metricValue == tr.value && EffectiveTargets(spec.gate.value.targets, cfg.namespace) == tr.targets
  {
  }

  /** A world a run can reach, as far as this record goes. */
  ghost predicate Reached(cfg: Config, w: World, id: Id) {
    Safe(cfg, w) && exists h :: Told(w, id, h)
  }

  lemma StepReached(cfg: Config, w: World, e: Event, id: Id)
    requires Reached(cfg, w, id)
    ensures Reached(cfg, Next(cfg, w, e), id)
  {
    StepKeepsSafe(cfg, w, e);
    var h :| Told(w, id, h);
    StepTold(cfg, w, e, id, h);
  }

  lemma {:induction false} RunReached(cfg: Config, w: World, es: seq<Event>, id: Id)
    requires ValidConfig(cfg) && Init(w)
    ensures Reached(cfg, Run(cfg, w, es), id)
  {
    RunKeepsSafe(cfg, w, es);
    RunTold(cfg, w, es, id);
  }

  lemma AtRecord(cfg: Config, tr: Trace, w: World, id: Id)
    requires Reached(cfg, w, id) && AsRun(cfg, tr, w, id) && id in w.ledger && w.ledger[id].lostRuns == 0
    ensures InvariantAt(cfg, tr, w, id)
  {
    assert Safe1(cfg, w, id);
  }

  /** What the next step finds: the invariant, and a cluster that fits. */
  ghost predicate Along<S>(cfg: Config, p: Pipeline<S, string>, fire: Event, s: S, w: World, id: Id, c: S) {
    && Reached(cfg, w, id) && AsRun(cfg, TraceOf(cfg, p, fire, s), w, id)
    && ClusterAsRun(w, id, c, FiredRun(cfg, p, fire, s).state, HeldAfter(cfg, p, fire, s).state)
  }

  lemma ReleaseKeepsAlong<S>(cfg: Config, p: Pipeline<S, string>, fire: Event, s: S, w: World, id: Id, c: S, e: Event)
    requires Along(cfg, p, fire, s, w, id, c) && Releases(cfg, w, e) && e.id == id && w.ledger[id].lostRuns == 0
    requires e.results == ReleasedRun(cfg, p, w, e, c).results
    ensures AsRun(cfg, TraceOf(cfg, p, fire, s), Next(cfg, w, e), id)
    ensures ClusterAsRun(Next(cfg, w, e), id, ReleasedRun(cfg, p, w, e, c).state, FiredRun(cfg, p, fire, s).state, HeldAfter(cfg, p, fire, s).state)
  {
    var tr := TraceOf(cfg, p, fire, s);
    AtRecord(cfg, tr, w, id);
    ReleaseSees(cfg, tr, w, e);
    TraceRan(cfg, p, fire, s);
    ReleaseAsRun(cfg, tr, w, e);
  }

  lemma QuietKeepsAlong<S>(cfg: Config, p: Pipeline<S, string>, fire: Event, s: S, w: World, id: Id, c: S, e: Event)
    requires Along(cfg, p, fire, s, w, id, c) && !Fires(cfg, w, e) && !Undoes(cfg, w, e) && !Releases(cfg, w, e)
    ensures AsRun(cfg, TraceOf(cfg, p, fire, s), Next(cfg, w, e), id)
    ensures ClusterAsRun(Next(cfg, w, e), id, c, FiredRun(cfg, p, fire, s).state, HeldAfter(cfg, p, fire, s).state)
  {
    var tr := TraceOf(cfg, p, fire, s);
    TraceRan(cfg, p, fire, s);
    StepAsRun(cfg, tr, w, e, id);
    if id in w.ledger {
      StepLosesByFailure(cfg, w, e, id);
      var h :| Told(w, id, h);
      RunsKept(cfg, w, e, id, h);
    } else {
      UnrecordedAsRun(cfg, tr, w, e, id);
    }
  }

  /** Once an attempt is lost nothing more is promised. */
  lemma LostKeepsAlong(cfg: Config, tr: Trace, w: World, e: Event, id: Id)
    requires Safe(cfg, w) && id in w.ledger && w.ledger[id].lostRuns > 0
    ensures id in Next(cfg, w, e).ledger && Next(cfg, w, e).ledger[id].lostRuns > 0 && AsRun(cfg, tr, Next(cfg, w, e), id)
  {
    StepLosesByFailure(cfg, w, e, id);
  }

  lemma StepAlong<S>(cfg: Config, p: Pipeline<S, string>, fire: Event, s: S, w: World, id: Id, c: S, e: Event)
    requires Along(cfg, p, fire, s, w, id, c) && LeavesAlone(cfg, w, e, id) && Faithful(cfg, p, w, e, c)
    ensures AsRun(cfg, TraceOf(cfg, p, fire, s), Next(cfg, w, e), id)
    ensures ClusterAsRun(Next(cfg, w, e), id, After(cfg, p, w, e, c), FiredRun(cfg, p, fire, s).state, HeldAfter(cfg, p, fire, s).state)
  {
    if id in w.ledger && w.ledger[id].lostRuns > 0 {
      LostKeepsAlong(cfg, TraceOf(cfg, p, fire, s), w, e, id);
    } else if Releases(cfg, w, e) {
      ReleaseKeepsAlong(cfg, p, fire, s, w, id, c, e);
    } else {
      QuietKeepsAlong(cfg, p, fire, s, w, id, c, e);
    }
  }

  lemma AlongNext<S>(cfg: Config, p: Pipeline<S, string>, fire: Event, s: S, w: World, id: Id, c: S, e: Event)
    requires Along(cfg, p, fire, s, w, id, c) && LeavesAlone(cfg, w, e, id) && Faithful(cfg, p, w, e, c)
    ensures Along(cfg, p, fire, s, Next(cfg, w, e), id, After(cfg, p, w, e, c))
  {
    StepReached(cfg, w, e, id);
    StepAlong(cfg, p, fire, s, w, id, c, e);
  }

  lemma AlongFirst<S>(cfg: Config, p: Pipeline<S, string>, w: World, id: Id, s: S, e: Event)
    requires Reached(cfg, w, id) && Fires(cfg, w, e) && id !in w.ledger && Faithful(cfg, p, w, e, s)
    ensures Along(cfg, p, e, s, Next(cfg, w, e), id, After(cfg, p, w, e, s))
  {
    StepReached(cfg, w, e, id);
    FiringEvent(cfg, w, e);
  }

  /** From the trigger on, as long as nothing else touches the cluster. */
  lemma {:induction false} RunAlong<S>(cfg: Config, p: Pipeline<S, string>, w: World, es: seq<Event>, id: Id, s: S)
    requires Reached(cfg, w, id) && Unfolds(cfg, p, w, es, id, s)
    ensures Along(cfg, p, es[0], s, Run(cfg, w, es), id, ClusterAfter(cfg, p, w, es, s))
  {
    var n := |es| - 1;
    if n == 0 {
      assert es[..0] == [];
      AlongFirst(cfg, p, w, id, s, es[0]);
    } else {
      RunAlong(cfg, p, w, es[..n], id, s);
      AlongNext(cfg, p, es[0], s, Run(cfg, w, es[..n]), id, ClusterAfter(cfg, p, w, es[..n], s), es[n]);
    }
  }

  // ---------------------------------------------------------------------------------------
  // The revert
  // ---------------------------------------------------------------------------------------

  /** Undoing the half that ran at once, from the cluster it left. */
  lemma {:induction false} FirstUndone<S(!new)>(cfg: Config, p: Pipeline<S, string>, e: Event, s: S)
    requires Operates(cfg, p)
    requires Replayable(p.registry) || Unmarked(TraceOf(cfg, p, e, s).first)
    ensures StateUndone(p.registry, TraceOf(cfg, p, e, s).first, 0, FiredRun(cfg, p, e, s).state) == s
  {
    var tr, q := TraceOf(cfg, p, e, s), p.(metricValue := SeenText(e));
    HalfUndone(q, tr.targets, 0, Cut(cfg, p), s, tr.first, 0);
  }

  /** Undoing both halves, from the cluster the held one left. */
  lemma {:induction false} BothUndone<S(!new)>(cfg: Config, p: Pipeline<S, string>, e: Event, s: S)
    requires Operates(cfg, p)
    requires var tr := TraceOf(cfg, p, e, s);
             Replayable(p.registry) || Unmarked(tr.first + tr.held)
    ensures var tr := TraceOf(cfg, p, e, s);
            StateUndone(p.registry, tr.first + tr.held, 0, HeldAfter(cfg, p, e, s).state) == s
  {
    SplitUndone(p.(metricValue := SeenText(e)), SeenTargets(cfg, e), Cut(cfg, p), s);
  }

  /** A pipeline cut at n, undone from the end of its second half. */
  lemma {:induction false} SplitUndone<S(!new)>(q: Pipeline<S, string>, targets: seq<Target>, n: nat, s: S)
    requires Lawful(q.registry)
    requires var first := RunTargets(q, targets, 0, n, s);
             Replayable(q.registry) || Unmarked(first.results + RunTargets(q, targets, n, |q.actions|, first.state).results)
    ensures var first := RunTargets(q, targets, 0, n, s);
            var held := RunTargets(q, targets, n, |q.actions|, first.state);
            StateUndone(q.registry, first.results + held.results, 0, held.state) == s
  {
    var first := RunTargets(q, targets, 0, n, s);
    var held := RunTargets(q, targets, n, |q.actions|, first.state);
    var all := first.results + held.results;
    assert all[0..0 + |first.results|] == first.results && all[|first.results|..|first.results| + |held.results|] == held.results;
    HalfUndone(q, targets, 0, n, s, all, 0);
    HalfUndone(q, targets, n, |q.actions|, first.state, all, |first.results|);
    StateUndoneAppend(q.registry, first.results, held.results, 0, held.state);
  }

  /** One half, whose results stand at k in a list that a rollback has left no mark on. */
  lemma {:induction false} HalfUndone<S(!new)>(q: Pipeline<S, string>, targets: seq<Target>, from: int, to: int, s: S, rs: seq<Result<string>>, k: nat)
    requires Lawful(q.registry) && (Replayable(q.registry) || Unmarked(rs))
    requires var o := RunTargets(q, targets, from, to, s);
             k + |o.results| <= |rs| && rs[k..k + |o.results|] == o.results
    ensures var o := RunTargets(q, targets, from, to, s);
            StateUndone(q.registry, o.results, 0, o.state) == s
  {
    var o := RunTargets(q, targets, from, to, s);
    if Replayable(q.registry) {
      TargetsUndoneAnyway(q, targets, from, to, s);
    } else {
      assert forall i :: 0 <= i < |o.results| ==> o.results[i] == rs[k + i];
      TargetsUndone(q, targets, from, to, s);
    }
  }

  lemma {:induction false} HalvesNamed<S(!new)>(cfg: Config, p: Pipeline<S, string>, e: Event, s: S)
    requires Operates(cfg, p)
    ensures var tr := TraceOf(cfg, p, e, s);
            NamesIn(tr.first, ReversibleNames(p.registry)) && NamesIn(tr.first + tr.held, ReversibleNames(p.registry))
  {
    var tr, q := TraceOf(cfg, p, e, s), p.(metricValue := SeenText(e));
    HalfNames(q, tr.targets, 0, Cut(cfg, p), s, ReversibleNames(p.registry));
    HalfNames(q, tr.targets, Cut(cfg, p), |p.actions|, FiredRun(cfg, p, e, s).state, ReversibleNames(p.registry));
    NamesAppend(tr.first, tr.held, ReversibleNames(p.registry));
  }

  /** A record that reports the halves that ran, replayed on the cluster as they left it. */
  lemma {:induction false} ReplayRestores<S(!new)>(cfg: Config, p: Pipeline<S, string>, fire: Event, s: S, actions: seq<Record>, both: bool)
    requires Operates(cfg, p)
    requires var tr := TraceOf(cfg, p, fire, s);
             Reports(actions, cfg.reversible, if both then tr.first + tr.held else tr.first)
    requires Replayable(p.registry) || Unmarked(Reported(actions))
    ensures StateReverted(p.registry, actions, 0, if both then HeldAfter(cfg, p, fire, s).state else FiredRun(cfg, p, fire, s).state) == s
  {
    HalvesNamed(cfg, p, fire, s);
    if both {
      BothUndone(cfg, p, fire, s);
    } else {
      FirstUndone(cfg, p, fire, s);
    }
    RevertUndoesReported(p.registry, actions, if both then HeldAfter(cfg, p, fire, s).state else FiredRun(cfg, p, fire, s).state);
  }

  /** What a reconcile that replays an undo has read, and what it finds on the cluster. */
  lemma UndoFinds<S>(cfg: Config, p: Pipeline<S, string>, fire: Event, s: S, w: World, e: Event, c: S)
    requires Undoes(cfg, w, e) && Along(cfg, p, fire, s, w, e.id, c)
    requires e.id in w.ledger && w.ledger[e.id].lostRuns == 0
    ensures var tr, actions, both := TraceOf(cfg, p, fire, s), w.apcs[e.id].base.audit.spec.actions, w.ledger[e.id].runs > 0;
            && Reports(actions, cfg.reversible, if both then tr.first + tr.held else tr.first)
            && c == (if both then HeldAfter(cfg, p, fire, s).state else FiredRun(cfg, p, fire, s).state)
            && After(cfg, p, w, e, c) == StateReverted(p.registry, actions, 0, c)
  {
    AtRecord(cfg, TraceOf(cfg, p, fire, s), w, e.id);
  }

  lemma {:induction false} UndoRestores<S(!new)>(cfg: Config, p: Pipeline<S, string>, fire: Event, s: S, w: World, e: Event, c: S)
    requires Operates(cfg, p) && Undoes(cfg, w, e) && Along(cfg, p, fire, s, w, e.id, c)
    requires e.id in w.ledger && w.ledger[e.id].lostRuns == 0
    requires Replayable(p.registry) || Unmarked(Reported(w.apcs[e.id].base.audit.spec.actions))
    ensures After(cfg, p, w, e, c) == s
  {
    UndoFinds(cfg, p, fire, s, w, e, c);
    ReplayRestores(cfg, p, fire, s, w.apcs[e.id].base.audit.spec.actions, w.ledger[e.id].runs > 0);
  }

  /** End to end. In any reachable state a policy triggers; its record is created, its gate, if any, is
      approved, denied or left to expire, and in the end a reconcile replays the record's undo, while
      nothing else touches the cluster in between. If no release attempt was lost, and the record
      shows no mark of a rollback or the plugins are replayable, the cluster is back in the state
      before the trigger. */
  lemma {:induction false} RevertUndoesTrigger<S(!new)>(cfg: Config, p: Pipeline<S, string>, w: World, before: seq<Event>,
                                                        es: seq<Event>, undo: Event, s: S)
    requires Operates(cfg, p) && Init(w)
    requires var v := Run(cfg, w, before);
             Undoes(cfg, Run(cfg, v, es), undo) && Unfolds(cfg, p, v, es, undo.id, s)
    requires var v := Run(cfg, Run(cfg, w, before), es);
             && undo.id in v.ledger && v.ledger[undo.id].lostRuns == 0
             && (Replayable(p.registry) || Unmarked(Reported(v.apcs[undo.id].base.audit.spec.actions)))
    ensures var v := Run(cfg, w, before);
            After(cfg, p, Run(cfg, v, es), undo, ClusterAfter(cfg, p, v, es, s)) == s
  {
    var v := Run(cfg, w, before);
    RunReached(cfg, w, before, undo.id);
    RunAlong(cfg, p, v, es, undo.id, s);
    UndoRestores(cfg, p, es[0], s, Run(cfg, v, es), undo, ClusterAfter(cfg, p, v, es, s));
  }
}
