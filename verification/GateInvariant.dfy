/**
 The invariant of the protocol about each audit record, and its preservation by every step: any
 interleaving, any failing write, any restart. `GateSafety` draws the conclusions.

 It says of one record: the ledger mirrors what is stored; the gate is the one the operator opened
 apart from its verdict; the verdict is the admitted one or there is none; the phase fits the
 verdict; a reconcile in flight never carries a decision its record does not support; every
 execution of the held half and of the undo is accounted for; and every action stands at its index
 with a target of its trigger. A step leaves all records but its subject untouched.
 */
module GateInvariant {
  import opened Common
  import opened Executor
  import opened AuditRecord
  import opened ApprovalApi
  import opened ApprovalWebhook
  import opened Protocol

  // ---------------------------------------------------------------------------------------
  // The invariant, record by record
  // ---------------------------------------------------------------------------------------

  ghost predicate Mirrored(w: World, id: Id) {
    (id in w.audits ==> id in w.ledger && w.audits[id].audit == w.ledger[id].last)
    && (id in w.apcs ==> id in w.ledger)
  }

  /** The gate the operator created, apart from its verdict. */
  ghost predicate GateFixed(cfg: Config, w: World, id: Id)
    requires id in w.ledger
  {
    var a := w.ledger[id].last;
    && (a.spec.gate.Some? <==> cfg.gate >= 0)
    && (a.status.phase != NoPhase ==> a.spec.gate.Some?)
    && (a.spec.gate.Some? ==>
          && a.spec.gate.value.actionIndex == cfg.gate
          && a.spec.gate.value.pendingPlugins == HeldPlugins(cfg)
          && a.spec.gate.value.targets == w.ledger[id].targets
          && a.spec.gate.value.expiresAt == a.spec.triggeredAt + cfg.approvalTimeout)
  }

  /** The verdict on the record is the admitted one, or there is none. */
  ghost predicate VerdictSound(w: World, id: Id)
    requires id in w.ledger
  {
    var l := w.ledger[id];
    && (l.verdict.Some? ==> l.last.spec.gate.Some?)
    && (l.last.spec.gate.Some? ==>
          var v := VerdictOf(l.last).value;
          if l.verdict.None? then v == OPEN
          else
            && v == Verdict(l.verdict.value.decision, l.verdict.value.who, Some(l.verdict.value.at))
            && l.verdict.value.decision in {Approve, Deny}
            && l.verdict.value.at < l.verdict.value.expiresAt == l.last.spec.gate.value.expiresAt
            && l.verdict.value.phase == Pending)
  }

  /** What a phase other than Pending says about the verdict. */
  ghost predicate PhaseFits(a: Audit, phase: Phase, now: int) {
    && (phase == Approved ==> a.spec.gate.Some? && a.spec.gate.value.decision == Approve)
    && (phase == Denied ==> Decided(a))
    && (phase == Expired ==>
          a.spec.gate.Some? && a.spec.gate.value.decision == Undecided && a.spec.gate.value.expiresAt <= now)
  }

  ghost predicate PhaseSound(w: World, id: Id)
    requires id in w.ledger
  {
    PhaseFits(w.ledger[id].last, w.ledger[id].last.status.phase, w.now)
    && (w.ppc.PMark? && w.ppc.id == id ==> w.ledger[id].last.status.phase == NoPhase)
  }

  /** A record as it was read or written: while the version stands, so does the content. */
  ghost predicate Current(w: World, id: Id, base: Stored) {
    id in w.audits ==>
      base.version <= w.audits[id].version && (base.version == w.audits[id].version ==> base == w.audits[id])
  }

  ghost predicate HasBase(pc: AuditPc) {
    !pc.AReadPolicy? && !pc.ACool?
  }

  /** The reconcile in flight on a record never carries a decision its record does not support. */
  ghost predicate FlightSound(cfg: Config, w: World, id: Id)
    requires id in w.ledger
  {
    id in w.apcs ==>
      var pc, l := w.apcs[id], w.ledger[id];
      && (HasBase(pc) ==>
            && Current(w, id, pc.base)
            && pc.base.audit.spec.actions <= l.last.spec.actions
            && (pc.base.audit.spec.gate.Some? <==> cfg.gate >= 0)
            && (pc.base.audit.spec.gate.Some? ==>
                  && pc.base.audit.spec.gate.value.actionIndex == cfg.gate
                  && pc.base.audit.spec.gate.value.pendingPlugins == HeldPlugins(cfg)
                  && pc.base.audit.spec.gate.value.targets == l.targets
                  && (Decided(pc.base.audit) ==> l.verdict.Some? && l.verdict.value.decision == pc.base.audit.spec.gate.value.decision))
            && (pc.base.audit.status.phase != NoPhase ==> pc.base.audit.spec.gate.Some?))
      && (pc.ARelease? || pc.ASpec? || pc.AStatus? ==>
            && pc.base.audit.status.phase == Pending
            && (pc.ARelease? ==> pc.base.audit.spec.gate.value.decision == Approve))
      && (pc.ASpec? || pc.AStatus? ==>
            && pc.phase in {Approved, Denied, Expired}
            && PhaseFits(pc.base.audit, pc.phase, w.now)
            && (pc.policy.Some? <==> pc.phase == Approved))
      && (pc.ASpec? ==>
            && pc.spec == pc.base.audit.spec.(actions := pc.spec.actions)
            && pc.base.audit.spec.actions <= pc.spec.actions
            && ActionsSound(pc.spec.actions, l.targets))
      && (pc.AReverted? ==> !pc.base.audit.status.reverted)
  }

  /** Executions of the held half: one per lost attempt, one in flight, one that reached Approved.
      Reverts likewise. */
  ghost predicate Accounted(w: World, id: Id)
    requires id in w.ledger
  {
    var l := w.ledger[id];
    && l.runs == l.lostRuns + (if l.last.status.phase == Approved then 1 else 0)
                 + (if id in w.apcs && Releasing(w.apcs[id]) then 1 else 0)
    && l.undos == l.lostUndos + (if l.last.status.reverted then 1 else 0)
                  + (if id in w.apcs && w.apcs[id].AReverted? then 1 else 0)
    && (l.runs > 0 ==> l.verdict.Some? && l.verdict.value.decision == Approve)
  }

  /** Record i carries index i, and a target of the trigger unless it says it did not run. */
  ghost predicate ActionsSound(actions: seq<Record>, targets: seq<Target>) {
    forall i :: 0 <= i < |actions| ==>
      actions[i].index == i
      && (actions[i].target in targets || (actions[i].status == Skipped && actions[i].target == Target("", "", "", "")))
  }

  ghost predicate TargetsBounded(cfg: Config, targets: seq<Target>) {
    targets != [] && |targets| <= Max(1, cfg.maxResources)
  }

  ghost predicate RecordSound(cfg: Config, w: World, id: Id)
    requires id in w.ledger
  {
    ActionsSound(w.ledger[id].last.spec.actions, w.ledger[id].targets) && TargetsBounded(cfg, w.ledger[id].targets)
  }

  ghost predicate Safe1(cfg: Config, w: World, id: Id) {
    Mirrored(w, id)
    && (id in w.ledger ==>
          && GateFixed(cfg, w, id) && VerdictSound(w, id) && PhaseSound(w, id)
          && FlightSound(cfg, w, id) && Accounted(w, id) && RecordSound(cfg, w, id))
  }

  ghost predicate PolicyFlightSound(cfg: Config, w: World) {
    && (w.ppc.PCreate? ==> Confined(w.ppc.results, w.ppc.targets) && TargetsBounded(cfg, w.ppc.targets))
    && (w.ppc.PMark? ==> w.ppc.id in w.ledger && cfg.gate >= 0)
  }

  ghost predicate Safe(cfg: Config, w: World) {
    ValidConfig(cfg) && PolicyFlightSound(cfg, w) && forall id: Id :: Safe1(cfg, w, id)
  }

  // ---------------------------------------------------------------------------------------
  // Every step keeps it
  // ---------------------------------------------------------------------------------------

  lemma {:induction false} RecordsOfResults(cfg: Config, actions: seq<Record>, results: seq<Result<string>>, targets: seq<Target>)
    requires ActionsSound(actions, targets) && Confined(results, targets)
    ensures ActionsSound(actions + ToRecords(cfg.reversible, |actions|, results), targets)
  {
    var recs := ToRecords(cfg.reversible, |actions|, results);
    forall i | |actions| <= i < |actions + recs|
      ensures (actions + recs)[i].index == i && (actions + recs)[i].target in targets
    {
      assert recs[i - |actions|] == ToRecord(cfg.reversible, |actions| + (i - |actions|), results[i - |actions|]);
    }
  }

  /** Nothing Safe1 speaks of changed for this record, and time did not run backwards. */
  ghost predicate Untouched(w: World, w': World, id: Id) {
    && (id in w.audits <==> id in w'.audits) && (id in w.audits ==> w'.audits[id] == w.audits[id])
    && (id in w.apcs <==> id in w'.apcs) && (id in w.apcs ==> w'.apcs[id] == w.apcs[id])
    && (id in w.ledger <==> id in w'.ledger) && (id in w.ledger ==> w'.ledger[id] == w.ledger[id])
    && w.now <= w'.now
    && (w'.ppc.PMark? && w'.ppc.id == id ==> w'.ppc == w.ppc)
  }

  lemma UntouchedStaysSafe(cfg: Config, w: World, w': World, id: Id)
    requires Safe1(cfg, w, id) && Untouched(w, w', id)
    ensures Safe1(cfg, w', id)
  {
  }

  /** The record an event is about. */
  function Subject(w: World, e: Event): Option<Id> {
    match e
    case ClientUpdate(id, _, _, _, _, _, _, _) => Some(id)
    case PolicyCreate(_, id) => Some(id)
    case PolicyMark(_) => if w.ppc.PMark? then Some(w.ppc.id) else None
    case AuditRead(id) => Some(id)
    case AuditDecide(id, _, _) => Some(id)
    case AuditRelease(id, _, _) => Some(id)
    case AuditWriteSpec(id, _) => Some(id)
    case AuditWriteStatus(id, _, _) => Some(id)
    case AuditReadPolicy(id, _) => Some(id)
    case AuditCooldown(id, _) => Some(id)
    case AuditWriteReverted(id, _) => Some(id)
    case _ => None
  }

  lemma CreateFrame(cfg: Config, w: World, ok: bool, id: Id, other: Id)
    requires id != other
    ensures Untouched(w, PolicyCreateStep(cfg, w, ok, id), other)
  {
  }

  lemma MarkFrame(w: World, ok: bool, other: Id)
    requires w.ppc.PMark? ==> w.ppc.id != other
    ensures Untouched(w, PolicyMarkStep(w, ok), other)
  {
  }

  lemma EvaluationFrame(cfg: Config, w: World, listOk: bool, sample: Sample, matched: Option<seq<Target>>,
                        results: seq<Result<string>>, other: Id)
    ensures Untouched(w, PolicyEvaluateStep(cfg, w, listOk, sample, matched, results), other)
  {
  }

  lemma PolicyFrame(cfg: Config, w: World, e: Event, other: Id)
    requires e.PolicyRead? || e.PolicyCheckGate? || e.PolicyFinish?
    ensures Untouched(w, Next(cfg, w, e), other)
  {
  }

  lemma DecideFrame(cfg: Config, w: World, id: Id, policyOk: bool, deleteOk: bool, other: Id)
    requires id != other
    ensures Untouched(w, AuditDecideStep(cfg, w, id, policyOk, deleteOk), other)
  {
  }

  lemma ReleaseFrame(cfg: Config, w: World, id: Id, answer: PolicyAnswer, results: seq<Result<string>>, other: Id)
    requires id != other
    ensures Untouched(w, AuditReleaseStep(cfg, w, id, answer, results), other)
  {
  }

  lemma WriteSpecFrame(w: World, id: Id, ok: bool, other: Id)
    requires id != other
    ensures Untouched(w, AuditWriteSpecStep(w, id, ok), other)
  {
  }

  lemma WriteStatusFrame(w: World, id: Id, d: int, ok: bool, other: Id)
    requires id != other
    ensures Untouched(w, AuditWriteStatusStep(w, id, d, ok), other)
  {
  }

  lemma ReadFrame(w: World, id: Id, ok: bool, other: Id)
    requires id != other
    ensures Untouched(w, AuditReadStep(w, id), other)
    ensures Untouched(w, AuditReadPolicyStep(w, id, ok), other)
  {
  }

  lemma CooldownFrame(w: World, id: Id, ok: bool, other: Id)
    requires id != other
    ensures Untouched(w, AuditCooldownStep(w, id, ok), other)
  {
  }

  lemma WriteRevertedFrame(w: World, id: Id, ok: bool, other: Id)
    requires id != other
    ensures Untouched(w, AuditWriteRevertedStep(w, id, ok), other)
  {
  }

  lemma ClientFrame(cfg: Config, w: World, e: Event, other: Id)
    requires e.ClientUpdate? && e.id != other
    ensures Untouched(w, Next(cfg, w, e), other)
  {
  }

  lemma OthersUntouched(cfg: Config, w: World, e: Event, other: Id)
    requires !e.Restart? && Subject(w, e) != Some(other)
    ensures Untouched(w, Next(cfg, w, e), other)
  {
    match e
    case Tick(_) =>
    case TouchPolicy =>
    case SinkWrite(_, _) =>
    case ClientUpdate(_, _, _, _, _, _, _, _) => ClientFrame(cfg, w, e, other);
    case PolicyEvaluate(listOk, sample, matched, results) =>
      EvaluationFrame(cfg, w, listOk, sample, matched, results, other);
    case PolicyCreate(ok, id) => CreateFrame(cfg, w, ok, id, other);
    case PolicyMark(ok) => MarkFrame(w, ok, other);
    case AuditDecide(id, policyOk, deleteOk) => DecideFrame(cfg, w, id, policyOk, deleteOk, other);
    case AuditRelease(id, answer, results) => ReleaseFrame(cfg, w, id, answer, results, other);
    case AuditWriteSpec(id, ok) => WriteSpecFrame(w, id, ok, other);
    case AuditWriteStatus(id, d, ok) => WriteStatusFrame(w, id, d, ok, other);
    case AuditRead(id) => ReadFrame(w, id, true, other);
    case AuditReadPolicy(id, ok) => ReadFrame(w, id, ok, other);
    case AuditCooldown(id, ok) => CooldownFrame(w, id, ok, other);
    case AuditWriteReverted(id, ok) => WriteRevertedFrame(w, id, ok, other);
    case _ => PolicyFrame(cfg, w, e, other);
  }

  lemma RestartKeeps(cfg: Config, w: World, id: Id)
    requires Safe1(cfg, w, id)
    ensures Safe1(cfg, Crash(w), id)
  {
  }

  /** A new version that leaves actions, status and the gate's frame alone, and whose verdict the
      ledger agrees with, keeps the invariant of its record. */
  lemma PutKeeps(cfg: Config, w: World, id: Id, spec: AuditSpec, verdict: Option<Admission>)
    requires Safe1(cfg, w, id) && id in w.audits
    requires var was := w.audits[id].audit.spec;
             && spec.actions == was.actions && spec.triggeredAt == was.triggeredAt
             && (spec.gate.Some? <==> was.gate.Some?)
             && (spec.gate.Some? ==>
                   && spec.gate.value.actionIndex == was.gate.value.actionIndex
                   && spec.gate.value.pendingPlugins == was.gate.value.pendingPlugins
                   && spec.gate.value.targets == was.gate.value.targets
                   && spec.gate.value.expiresAt == was.gate.value.expiresAt)
             && (w.ledger[id].verdict == None || spec.gate.value.decision == was.gate.value.decision)
             && (w.audits[id].audit.status.phase != Pending && spec.gate.Some? ==> spec.gate.value.decision == was.gate.value.decision)
             && (w.ledger[id].verdict.Some? ==> verdict == w.ledger[id].verdict)
    requires var a := w.audits[id].audit.(spec := spec);
             VerdictSound(w.(ledger := w.ledger[id := w.ledger[id].(last := a, verdict := verdict)]), id)
    ensures var w' := Put(w, id, w.audits[id].audit.(spec := spec));
            Safe1(cfg, w'.(ledger := w'.ledger[id := w'.ledger[id].(verdict := verdict)]), id)
  {
  }

  lemma ClientGateKeeps(cfg: Config, w: World, id: Id, gate: Gate, revert: bool, user: string)
    requires Safe1(cfg, w, id) && id in w.audits && w.audits[id].audit.spec.gate.Some?
    requires var was := w.audits[id].audit.spec.gate.value;
             gate == was.(decision := gate.decision, decidedBy := gate.decidedBy, decidedAt := gate.decidedAt, reason := gate.reason)
    ensures var a := w.audits[id].audit;
            var spec := a.spec.(gate := Some(gate), revertRequested := revert);
            match Handle(a, spec, user, w.now)
            case Refused(_) => true
            case Allowed => Safe1(cfg, Put(w, id, a.(spec := spec)), id)
            case Patched(patched) =>
              var w' := Put(w, id, a.(spec := patched));
              var admitted := Admission(gate.decision, RequesterName(user), w.now, a.spec.gate.value.expiresAt, a.status.phase);
              patched.gate.Some? && Safe1(cfg, w'.(ledger := w'.ledger[id := w'.ledger[id].(verdict := Some(admitted))]), id)
  {
    var a := w.audits[id].audit;
    var spec := a.spec.(gate := Some(gate), revertRequested := revert);
    match Handle(a, spec, user, w.now)
    case Refused(_) =>
    case Allowed =>
      PutKeeps(cfg, w, id, spec, w.ledger[id].verdict);
      var w' := Put(w, id, a.(spec := spec));
      assert w'.(ledger := w'.ledger[id := w'.ledger[id].(verdict := w.ledger[id].verdict)]) == w';
    case Patched(patched) =>
      PutKeeps(cfg, w, id, patched,
               Some(Admission(gate.decision, RequesterName(user), w.now, a.spec.gate.value.expiresAt, a.status.phase)));
  }

  lemma ClientKeeps(cfg: Config, w: World, e: Event)
    requires Safe(cfg, w) && e.ClientUpdate?
    ensures Safe1(cfg, Next(cfg, w, e), e.id)
  {
    var id := e.id;
    assert Safe1(cfg, w, id);
    if Lands(w, id, e.version, true) {
      var spec := w.audits[id].audit.spec;
      if spec.gate.None? {
        PutKeeps(cfg, w, id, spec.(revertRequested := e.revert), w.ledger[id].verdict);
      } else {
        ClientGateKeeps(cfg, w, id,
                        spec.gate.value.(decision := e.decision, decidedBy := e.decidedBy, decidedAt := e.decidedAt, reason := e.reason),
                        e.revert, e.user);
      }
    }
  }

  lemma NewAuditSound(cfg: Config, t: int, value: string, results: seq<Result<string>>, targets: seq<Target>)
    requires Confined(results, targets)
    ensures ActionsSound(NewAudit(cfg, t, value, results, targets).spec.actions, targets)
  {
    RecordsOfResults(cfg, [], results, targets);
    assert [] + ToRecords(cfg.reversible, 0, results) == ToRecords(cfg.reversible, 0, results);
  }

  lemma CreateKeeps(cfg: Config, w: World, ok: bool, id: Id)
    requires Safe(cfg, w)
    ensures Safe1(cfg, PolicyCreateStep(cfg, w, ok, id), id)
  {
    assert Safe1(cfg, w, id);
    if w.ppc.PCreate? && id !in w.ledger && id !in w.audits {
      NewAuditSound(cfg, w.ppc.t, w.ppc.value, w.ppc.results, w.ppc.targets);
    }
  }

  lemma PendingKeeps(cfg: Config, w: World, id: Id)
    requires Safe1(cfg, w, id) && id in w.audits && cfg.gate >= 0
    requires w.audits[id].audit.status.phase == NoPhase
    ensures var a := w.audits[id].audit;
            Safe1(cfg, Put(w.(ppc := PIdle), id, a.(status := a.status.(phase := Pending))), id)
  {
  }

  lemma MarkKeeps(cfg: Config, w: World, ok: bool)
    requires Safe(cfg, w) && w.ppc.PMark?
    ensures Safe1(cfg, PolicyMarkStep(w, ok), w.ppc.id)
  {
    var id := w.ppc.id;
    assert Safe1(cfg, w, id);
    if Lands(w, id, w.ppc.version, ok) {
      var a := w.audits[id].audit;
      PendingKeeps(cfg, w, id);
      UntouchedStaysSafe(cfg, Put(w.(ppc := PIdle), id, a.(status := a.status.(phase := Pending))), PolicyMarkStep(w, ok), id);
    }
  }

  lemma ReadKeeps(cfg: Config, w: World, id: Id)
    requires Safe(cfg, w)
    ensures Safe1(cfg, AuditReadStep(w, id), id)
  {
    assert Safe1(cfg, w, id);
  }

  lemma {:induction false} SkippedRecordsSound(actions: seq<Record>, plugins: seq<string>, closing: Closing, targets: seq<Target>)
    requires ActionsSound(actions, targets)
    ensures ActionsSound(actions + SkippedRecords(|actions|, plugins, closing), targets)
  {
    var recs := SkippedRecords(|actions|, plugins, closing);
    forall i | |actions| <= i < |actions| + |recs|
      ensures (actions + recs)[i] == recs[i - |actions|]
    {
    }
  }

  lemma CloseGateKeeps(cfg: Config, w: World, id: Id, base: Stored, phase: Phase, closing: Closing)
    requires ValidConfig(cfg) && Safe1(cfg, w, id)
    requires id in w.apcs && (w.apcs[id] == ADecide(base) || w.apcs[id] == ARelease(base))
    requires base.audit.status.phase == Pending
    requires phase in {Denied, Expired} && PhaseFits(base.audit, phase, w.now)
    ensures Safe1(cfg, Proceed(w, id, CloseGate(w.now, base, phase, closing)), id)
  {
    var spec := base.audit.spec;
    assert ActionsSound(spec.actions, w.ledger[id].targets);
    SkippedRecordsSound(spec.actions, spec.gate.value.pendingPlugins, closing, w.ledger[id].targets);
  }

  lemma ResolveKeeps(cfg: Config, w: World, id: Id, base: Stored)
    requires ValidConfig(cfg) && Safe1(cfg, w, id)
    requires id in w.apcs && w.apcs[id] == ADecide(base)
    requires base.audit.status.phase == Pending
    requires ResolveGate(w.now, base).Some?
    ensures Safe1(cfg, Proceed(w, id, ResolveGate(w.now, base).value), id)
  {
    var gate := base.audit.spec.gate.value;
    if gate.decision == Deny {
      CloseGateKeeps(cfg, w, id, base, Denied, DeniedByHuman(DecidedByOrUnknown(gate)));
    } else if gate.decision != Approve {
      CloseGateKeeps(cfg, w, id, base, Expired, NotInTime);
    }
  }

  lemma EndKeeps(cfg: Config, w: World, id: Id)
    requires Safe1(cfg, w, id) && id in w.apcs && w.apcs[id].ADecide?
    ensures Safe1(cfg, Done(w, id), id)
    ensures Safe1(cfg, Done(w, id).(audits := w.audits - {id}), id)
  {
  }

  lemma RevertBeginsKeeps(cfg: Config, w: World, id: Id, base: Stored)
    requires Safe1(cfg, w, id) && id in w.apcs && w.apcs[id] == ADecide(base) && !base.audit.status.reverted
    ensures Safe1(cfg, Proceed(w, id, AReverted(base)).(ledger := w.ledger[id := w.ledger[id].(undos := w.ledger[id].undos + 1)]), id)
  {
  }

  lemma DecideKeeps(cfg: Config, w: World, id: Id, policyOk: bool, deleteOk: bool)
    requires Safe(cfg, w)
    ensures Safe1(cfg, AuditDecideStep(cfg, w, id, policyOk, deleteOk), id)
  {
    assert Safe1(cfg, w, id);
    if id in w.apcs && w.apcs[id].ADecide? {
      var base := w.apcs[id].base;
      EndKeeps(cfg, w, id);
      if !base.audit.status.reverted {
        RevertBeginsKeeps(cfg, w, id, base);
      }
      if base.audit.status.phase == Pending && ResolveGate(w.now, base).Some? {
        ResolveKeeps(cfg, w, id, base);
      }
    }
  }

  /** The held half ran on the recorded targets. */
  lemma {:induction false} HeldRunKeeps(cfg: Config, w: World, id: Id, results: seq<Result<string>>)
    requires ValidConfig(cfg) && Safe1(cfg, w, id) && id in w.apcs && w.apcs[id].ARelease?
    requires Confined(results, w.ledger[id].targets)
    ensures var base, l := w.apcs[id].base, w.ledger[id];
            var spec := base.audit.spec;
            var released := spec.(actions := spec.actions + ToRecords(cfg.reversible, |spec.actions|, results));
            Safe1(cfg, Proceed(w, id, ASpec(base, released, Approved, Some(w.policy))).(ledger := w.ledger[id := l.(runs := l.runs + 1)]), id)
  {
    var base := w.apcs[id].base;
    assert ActionsSound(base.audit.spec.actions, w.ledger[id].targets);
    RecordsOfResults(cfg, base.audit.spec.actions, results, w.ledger[id].targets);
  }

  lemma ReleaseKeeps(cfg: Config, w: World, id: Id, answer: PolicyAnswer, results: seq<Result<string>>)
    requires Safe(cfg, w)
    ensures Safe1(cfg, AuditReleaseStep(cfg, w, id, answer, results), id)
  {
    assert Safe1(cfg, w, id);
    if id in w.apcs && w.apcs[id].ARelease? {
      var base := w.apcs[id].base;
      match answer
      case ReadError =>
      case Gone => CloseGateKeeps(cfg, w, id, base, Denied, PolicyGone);
      case Replaced => CloseGateKeeps(cfg, w, id, base, Denied, PolicyReplaced);
      case Found =>
        if Confined(results, w.ledger[id].targets) {
          HeldRunKeeps(cfg, w, id, results);
        }
    }
  }

  lemma LoseKeeps(cfg: Config, w: World, id: Id)
    requires Safe1(cfg, w, id) && id in w.apcs && w.apcs[id].AStatus?
    ensures Safe1(cfg, Lose(w, id), id)
  {
    if w.apcs[id].phase == Approved {
      assert Lose(w, id) == Lost(Done(w, id), id, true);
    } else {
      assert Lose(w, id) == Done(w, id);
    }
  }

  lemma WriteSpecKeeps(cfg: Config, w: World, id: Id, ok: bool)
    requires Safe(cfg, w)
    ensures Safe1(cfg, AuditWriteSpecStep(w, id, ok), id)
  {
    assert Safe1(cfg, w, id);
  }

  /** The phase ends, and only the policy is left to be written. */
  lemma EndPhaseKeeps(cfg: Config, w: World, id: Id, resumed: Option<int>, tail: AuditPc)
    requires Safe1(cfg, w, id) && id in w.apcs && w.apcs[id].AStatus? && (tail.AReadPolicy? || tail.ACool?)
    requires id in w.audits && w.audits[id].version == w.apcs[id].base.version
    ensures var a := w.audits[id].audit;
            Safe1(cfg, Proceed(Put(w, id, a.(status := a.status.(phase := w.apcs[id].phase, resumedAt := resumed))), id, tail), id)
  {
  }

  lemma WriteStatusKeeps(cfg: Config, w: World, id: Id, d: int, ok: bool)
    requires Safe(cfg, w)
    ensures Safe1(cfg, AuditWriteStatusStep(w, id, d, ok), id)
  {
    assert Safe1(cfg, w, id);
    if id in w.apcs && w.apcs[id].AStatus? && w.apcs[id].since <= d <= w.now {
      var pc := w.apcs[id];
      if Lands(w, id, pc.base.version, ok) {
        var a := w.audits[id].audit;
        var resumed := if pc.phase == Approved then Some(d) else a.status.resumedAt;
        var tail := if pc.policy.Some? then ACool(pc.policy.value, d) else AReadPolicy(d);
        EndPhaseKeeps(cfg, w, id, resumed, tail);
        UntouchedStaysSafe(cfg, Proceed(Put(w, id, a.(status := a.status.(phase := pc.phase, resumedAt := resumed))), id, tail),
                           AuditWriteStatusStep(w, id, d, ok), id);
      } else {
        LoseKeeps(cfg, w, id);
      }
    }
  }

  lemma ReadPolicyKeeps(cfg: Config, w: World, id: Id, ok: bool)
    requires Safe(cfg, w)
    ensures Safe1(cfg, AuditReadPolicyStep(w, id, ok), id)
  {
    assert Safe1(cfg, w, id);
  }

  lemma CooldownKeeps(cfg: Config, w: World, id: Id, ok: bool)
    requires Safe(cfg, w)
    ensures Safe1(cfg, AuditCooldownStep(w, id, ok), id)
  {
    assert Safe1(cfg, w, id);
  }

  lemma WriteRevertedKeeps(cfg: Config, w: World, id: Id, ok: bool)
    requires Safe(cfg, w)
    ensures Safe1(cfg, AuditWriteRevertedStep(w, id, ok), id)
  {
    assert Safe1(cfg, w, id);
  }

  lemma SubjectKeeps(cfg: Config, w: World, e: Event, id: Id)
    requires Safe(cfg, w) && Subject(w, e) == Some(id)
    ensures Safe1(cfg, Next(cfg, w, e), id)
  {
    match e
    case ClientUpdate(_, _, _, _, _, _, _, _) => ClientKeeps(cfg, w, e);
    case PolicyCreate(ok, _) => CreateKeeps(cfg, w, ok, id);
    case PolicyMark(ok) => MarkKeeps(cfg, w, ok);
    case AuditRead(_) => ReadKeeps(cfg, w, id);
    case AuditDecide(_, policyOk, deleteOk) => DecideKeeps(cfg, w, id, policyOk, deleteOk);
    case AuditRelease(_, answer, results) => ReleaseKeeps(cfg, w, id, answer, results);
    case AuditWriteSpec(_, ok) => WriteSpecKeeps(cfg, w, id, ok);
    case AuditWriteStatus(_, d, ok) => WriteStatusKeeps(cfg, w, id, d, ok);
    case AuditReadPolicy(_, ok) => ReadPolicyKeeps(cfg, w, id, ok);
    case AuditCooldown(_, ok) => CooldownKeeps(cfg, w, id, ok);
    case AuditWriteReverted(_, ok) => WriteRevertedKeeps(cfg, w, id, ok);
  }

  lemma EvaluationFlightKeeps(cfg: Config, w: World, listOk: bool, sample: Sample, matched: Option<seq<Target>>,
                              results: seq<Result<string>>)
    requires PolicyFlightSound(cfg, w)
    ensures PolicyFlightSound(cfg, PolicyEvaluateStep(cfg, w, listOk, sample, matched, results))
  {
  }

  /** The policy reconcile, the clock, the window, the limiter and what is remembered of them are as
      before, and no record appeared or was forgotten. */
  ghost predicate SparesPolicySide(w: World, w': World) {
    && w'.ppc == w.ppc && w'.now == w.now && w'.window == w.window && w'.cache == w.cache
    && w'.skipped == w.skipped && w'.landed == w.landed && w'.ledger.Keys == w.ledger.Keys
  }

  ghost predicate SparesSink(w: World, w': World) {
    w'.batches == w.batches && w'.table == w.table
  }

  ghost predicate SparesPolicy(w: World, w': World) {
    w'.policy == w.policy && w'.marks == w.marks
  }

  lemma DecideSpares(cfg: Config, w: World, e: Event)
    requires Safe(cfg, w) && e.AuditDecide?
    ensures SparesPolicySide(w, Next(cfg, w, e)) && SparesSink(w, Next(cfg, w, e))
    ensures SparesPolicy(w, Next(cfg, w, e))
  {
    assert Safe1(cfg, w, e.id);
  }

  lemma ReleaseSpares(cfg: Config, w: World, e: Event)
    requires Safe(cfg, w) && (e.AuditRelease? || e.AuditRead?)
    ensures SparesPolicySide(w, Next(cfg, w, e)) && SparesSink(w, Next(cfg, w, e))
    ensures SparesPolicy(w, Next(cfg, w, e))
  {
    assert Safe1(cfg, w, e.id);
  }

  lemma WriteSpecSpares(cfg: Config, w: World, e: Event)
    requires Safe(cfg, w) && e.AuditWriteSpec?
    ensures SparesPolicySide(w, Next(cfg, w, e)) && SparesSink(w, Next(cfg, w, e))
    ensures SparesPolicy(w, Next(cfg, w, e))
  {
    assert Safe1(cfg, w, e.id);
  }

  lemma WriteStatusSpares(cfg: Config, w: World, e: Event)
    requires Safe(cfg, w) && e.AuditWriteStatus?
    ensures SparesPolicySide(w, Next(cfg, w, e))
    ensures SparesPolicy(w, Next(cfg, w, e))
  {
    assert Safe1(cfg, w, e.id);
  }

  lemma WriteRevertedSpares(cfg: Config, w: World, e: Event)
    requires Safe(cfg, w) && e.AuditWriteReverted?
    ensures SparesPolicySide(w, Next(cfg, w, e)) && SparesSink(w, Next(cfg, w, e))
    ensures SparesPolicy(w, Next(cfg, w, e))
  {
    assert Safe1(cfg, w, e.id);
  }

  lemma TailSpares(cfg: Config, w: World, e: Event)
    requires e.AuditReadPolicy? || e.AuditCooldown?
    ensures SparesPolicySide(w, Next(cfg, w, e)) && SparesSink(w, Next(cfg, w, e))
    ensures !e.AuditCooldown? ==> SparesPolicy(w, Next(cfg, w, e))
  {
  }

  lemma ClientSpares(cfg: Config, w: World, e: Event)
    requires Safe(cfg, w) && e.ClientUpdate?
    ensures SparesPolicySide(w, Next(cfg, w, e)) && SparesSink(w, Next(cfg, w, e))
    ensures SparesPolicy(w, Next(cfg, w, e))
  {
    assert Safe1(cfg, w, e.id);
  }

  predicate ByAuditReconciler(e: Event) {
    e.AuditRead? || e.AuditDecide? || e.AuditRelease? || e.AuditWriteSpec? || e.AuditWriteStatus?
    || e.AuditReadPolicy? || e.AuditCooldown? || e.AuditWriteReverted?
  }

  /** Clients and the audit reconciler leave the policy reconciler's side alone; only startCooldown
      writes the policy. */
  lemma AuditSideSpares(cfg: Config, w: World, e: Event)
    requires Safe(cfg, w) && (ByAuditReconciler(e) || e.ClientUpdate?)
    ensures SparesPolicySide(w, Next(cfg, w, e))
    ensures !e.AuditWriteStatus? ==> SparesSink(w, Next(cfg, w, e))
    ensures !e.AuditCooldown? ==> SparesPolicy(w, Next(cfg, w, e))
  {
    match e
    case AuditDecide(_, _, _) => DecideSpares(cfg, w, e);
    case AuditRelease(_, _, _) => ReleaseSpares(cfg, w, e);
    case AuditRead(_) => ReleaseSpares(cfg, w, e);
    case AuditWriteSpec(_, _) => WriteSpecSpares(cfg, w, e);
    case AuditWriteStatus(_, _, _) => WriteStatusSpares(cfg, w, e);
    case ClientUpdate(_, _, _, _, _, _, _, _) => ClientSpares(cfg, w, e);
    case AuditWriteReverted(_, _) => WriteRevertedSpares(cfg, w, e);
    case _ => TailSpares(cfg, w, e);
  }

  lemma RecordStepFlightKeeps(cfg: Config, w: World, e: Event)
    requires PolicyFlightSound(cfg, w)
    requires e.PolicyCreate? || e.PolicyMark?
    ensures PolicyFlightSound(cfg, Next(cfg, w, e))
  {
  }

  lemma PolicyFlightKeeps(cfg: Config, w: World, e: Event)
    requires Safe(cfg, w)
    ensures PolicyFlightSound(cfg, Next(cfg, w, e))
  {
    if e.PolicyEvaluate? {
      EvaluationFlightKeeps(cfg, w, e.listOk, e.sample, e.matched, e.results);
    } else if ByAuditReconciler(e) || e.ClientUpdate? {
      AuditSideSpares(cfg, w, e);
    } else if e.PolicyCreate? || e.PolicyMark? {
      RecordStepFlightKeeps(cfg, w, e);
    }
  }

  lemma StepKeepsSafe(cfg: Config, w: World, e: Event)
    requires Safe(cfg, w)
    ensures Safe(cfg, Next(cfg, w, e))
  {
    PolicyFlightKeeps(cfg, w, e);
    forall id: Id
      ensures Safe1(cfg, Next(cfg, w, e), id)
    {
      assert Safe1(cfg, w, id);
      if e.Restart? {
        RestartKeeps(cfg, w, id);
      } else if Subject(w, e) == Some(id) {
        SubjectKeeps(cfg, w, e, id);
      } else {
        OthersUntouched(cfg, w, e, id);
        UntouchedStaysSafe(cfg, w, Next(cfg, w, e), id);
      }
    }
  }

  lemma {:induction false} RunKeepsSafe(cfg: Config, w: World, es: seq<Event>)
    requires ValidConfig(cfg) && Init(w)
    ensures Safe(cfg, Run(cfg, w, es))
  {
    if es != [] {
      RunKeepsSafe(cfg, w, es[..|es| - 1]);
      StepKeepsSafe(cfg, Run(cfg, w, es[..|es| - 1]), es[|es| - 1]);
    }
  }
}
