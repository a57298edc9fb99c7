/**
 What every run guarantees about approval gates and audit records.
 */
module GateSafety {
  import opened Common
  import opened Executor
  import opened ApprovalApi
  import opened ApprovalWebhook
  import opened Protocol
  import opened GateInvariant

  /*
   Expiry and approval never both win, the held half is accounted for, phases only move forward,
   the record only grows, and the blast radius stays what it was at trigger time.
  */

  // ---------------------------------------------------------------------------------------
  // In every reachable state
  // ---------------------------------------------------------------------------------------

  /** A gate that expired was never decided, an approved one carries an admitted approval, and the
      held half has executed at all only if a human's approval was admitted on the Pending record
      strictly before its expiry. */
  lemma {:induction false} ExpiryAndApprovalNeverBothWin(cfg: Config, w: World, es: seq<Event>, id: Id)
    requires ValidConfig(cfg) && Init(w)
    requires id in Run(cfg, w, es).ledger
    ensures var l := Run(cfg, w, es).ledger[id];
            && (l.last.status.phase == Expired ==> !Decided(l.last) && l.verdict.None? && l.runs == 0)
            && (l.last.status.phase == Approved ==> l.last.spec.gate.Some? && l.last.spec.gate.value.decision == Approve)
            && (l.last.status.phase == Approved || l.runs > 0 ==>
                  && l.verdict.Some? && l.verdict.value.decision == Approve
                  && l.verdict.value.phase == Pending
                  && l.verdict.value.at < l.verdict.value.expiresAt
                  && l.verdict.value.expiresAt == l.last.spec.triggeredAt + cfg.approvalTimeout)
  {
    RunKeepsSafe(cfg, w, es);
    assert Safe1(cfg, Run(cfg, w, es), id);
  }

  /** The held half executed once for every release attempt that was lost, once more if the gate
      reached Approved, and once more for an attempt still under way. So it ran exactly once for
      an approved gate whose writes all landed, and never for a denied or expired one. */
  lemma {:induction false} HeldHalfAccounting(cfg: Config, w: World, es: seq<Event>, id: Id)
    requires ValidConfig(cfg) && Init(w)
    requires id in Run(cfg, w, es).ledger
    ensures var w' := Run(cfg, w, es);
            var l := w'.ledger[id];
            && l.runs == l.lostRuns + (if l.last.status.phase == Approved then 1 else 0)
                         + (if id in w'.apcs && Releasing(w'.apcs[id]) then 1 else 0)
            && (l.lostRuns == 0 && id !in w'.apcs ==> l.runs == if l.last.status.phase == Approved then 1 else 0)
            && (l.last.spec.gate.Some? && l.last.spec.gate.value.decision == Deny ==> l.runs == 0)
            && l.undos == l.lostUndos + (if l.last.status.reverted then 1 else 0)
                          + (if id in w'.apcs && w'.apcs[id].AReverted? then 1 else 0)
  {
    RunKeepsSafe(cfg, w, es);
    assert Safe1(cfg, Run(cfg, w, es), id);
  }

  /** Every update by which the operator adds records to a gate passes its own admission handler. */
  lemma StepAdmitsOwnUpdate(cfg: Config, w: World, id: Id, ok: bool)
    requires Safe(cfg, w)
    requires id in w.apcs && w.apcs[id].ASpec? && Lands(w, id, w.apcs[id].base.version, ok)
    ensures Handle(w.audits[id].audit, w.apcs[id].spec, OPERATOR, w.now) == Allowed
  {
    assert Safe1(cfg, w, id);
    OperatorUpdatesAdmitted(w.audits[id].audit, w.apcs[id].spec.actions, OPERATOR, w.now);
  }

  lemma {:induction false} OwnUpdatesAdmitted(cfg: Config, w: World, es: seq<Event>, id: Id, ok: bool)
    requires ValidConfig(cfg) && Init(w)
    requires var v := Run(cfg, w, es);
             id in v.apcs && v.apcs[id].ASpec? && Lands(v, id, v.apcs[id].base.version, ok)
    ensures var v := Run(cfg, w, es);
            Handle(v.audits[id].audit, v.apcs[id].spec, OPERATOR, v.now) == Allowed
  {
    RunKeepsSafe(cfg, w, es);
    StepAdmitsOwnUpdate(cfg, Run(cfg, w, es), id, ok);
  }

  /** A record that is Pending always describes its gate, so closing one for lack of a gate never
      happens; and a gate always holds at least the gated action itself. */
  lemma {:induction false} PendingHasGate(cfg: Config, w: World, es: seq<Event>, id: Id)
    requires ValidConfig(cfg) && Init(w)
    ensures var w' := Run(cfg, w, es);
            && (id in w'.audits && w'.audits[id].audit.status.phase == Pending ==>
                  && w'.audits[id].audit.spec.gate.Some?
                  && w'.audits[id].audit.spec.gate.value.pendingPlugins == HeldPlugins(cfg) != [])
            && (id in w'.apcs && w'.apcs[id].ADecide? && w'.apcs[id].base.audit.status.phase == Pending ==>
                  w'.apcs[id].base.audit.spec.gate.Some?)
  {
    RunKeepsSafe(cfg, w, es);
    assert Safe1(cfg, Run(cfg, w, es), id);
  }

  /** The targets of a trigger are bounded, frozen on its gate, and every action record of either
      half names one of them or says it did not run. */
  lemma {:induction false} BlastRadiusFrozen(cfg: Config, w: World, es: seq<Event>, id: Id)
    requires ValidConfig(cfg) && Init(w)
    requires id in Run(cfg, w, es).ledger
    ensures var l := Run(cfg, w, es).ledger[id];
            && 0 < |l.targets| <= Max(1, cfg.maxResources)
            && (l.last.spec.gate.Some? ==> l.last.spec.gate.value.targets == l.targets)
            && (forall i :: 0 <= i < |l.last.spec.actions| ==>
                  && l.last.spec.actions[i].index == i
                  && (l.last.spec.actions[i].target in l.targets || l.last.spec.actions[i].status == Skipped))
  {
    RunKeepsSafe(cfg, w, es);
    assert Safe1(cfg, Run(cfg, w, es), id);
  }

  // ---------------------------------------------------------------------------------------
  // From one state to every later one
  // ---------------------------------------------------------------------------------------

  predicate PhaseReaches(from: Phase, to: Phase) {
    from == to || from == NoPhase || (from == Pending && to in {Approved, Denied, Expired})
  }

  /** What a later state keeps of a record: the phase moved forward if at all, recorded actions are
      still there in front, an admitted verdict stands, and what the trigger fixed is fixed. */
  ghost predicate Extends(earlier: Ledger, later: Ledger) {
    && PhaseReaches(earlier.last.status.phase, later.last.status.phase)
    && earlier.last.spec.actions <= later.last.spec.actions
    && (earlier.verdict.Some? ==> later.verdict == earlier.verdict)
    && earlier.targets == later.targets
    && earlier.last.spec.triggeredAt == later.last.spec.triggeredAt
    && (earlier.last.status.reverted ==> later.last.status.reverted)
    && earlier.runs <= later.runs
  }

  ghost predicate StepExtends(earlier: Ledger, later: Ledger) {
    Extends(earlier, later) && PhaseMoves(earlier.last.status.phase, later.last.status.phase)
  }

  /** And no execution of the held half was lost. */
  ghost predicate Retains(earlier: Ledger, later: Ledger) {
    StepExtends(earlier, later) && later.lostRuns == earlier.lostRuns
  }

  lemma ClientExtends(cfg: Config, w: World, e: Event)
    requires Safe(cfg, w) && e.ClientUpdate? && e.id in w.ledger
    ensures e.id in Next(cfg, w, e).ledger && Retains(w.ledger[e.id], Next(cfg, w, e).ledger[e.id])
  {
    assert Safe1(cfg, w, e.id);
  }

  lemma WriteSpecExtends(cfg: Config, w: World, id: Id, ok: bool)
    requires Safe(cfg, w) && id in w.ledger
    ensures var w' := AuditWriteSpecStep(w, id, ok);
            id in w'.ledger && StepExtends(w.ledger[id], w'.ledger[id])
  {
    assert Safe1(cfg, w, id);
  }

  lemma WriteStatusExtends(cfg: Config, w: World, id: Id, d: int, ok: bool)
    requires Safe(cfg, w) && id in w.ledger
    ensures var w' := AuditWriteStatusStep(w, id, d, ok);
            id in w'.ledger && StepExtends(w.ledger[id], w'.ledger[id])
  {
    assert Safe1(cfg, w, id);
  }

  lemma RecordStepsExtend(cfg: Config, w: World, e: Event, id: Id)
    requires Safe(cfg, w) && id in w.ledger
    requires e.AuditDecide? || e.AuditRelease?
    ensures id in Next(cfg, w, e).ledger && Retains(w.ledger[id], Next(cfg, w, e).ledger[id])
  {
    assert Safe1(cfg, w, id);
  }

  lemma CreateExtends(cfg: Config, w: World, ok: bool, created: Id, id: Id)
    requires id in w.ledger
    ensures var w' := PolicyCreateStep(cfg, w, ok, created);
            id in w'.ledger && Retains(w.ledger[id], w'.ledger[id])
  {
  }

  lemma MarkExtends(cfg: Config, w: World, ok: bool, id: Id)
    requires Safe(cfg, w) && id in w.ledger
    ensures var w' := PolicyMarkStep(w, ok);
            id in w'.ledger && Retains(w.ledger[id], w'.ledger[id])
  {
    assert Safe1(cfg, w, id);
  }

  lemma WriteRevertedExtends(cfg: Config, w: World, id: Id, ok: bool)
    requires Safe(cfg, w) && id in w.ledger
    ensures var w' := AuditWriteRevertedStep(w, id, ok);
            id in w'.ledger && Retains(w.ledger[id], w'.ledger[id])
  {
    assert Safe1(cfg, w, id);
  }

  lemma OtherStepsExtend(cfg: Config, w: World, e: Event, id: Id)
    requires Safe(cfg, w) && id in w.ledger
    requires e.AuditRead? || e.AuditReadPolicy? || e.AuditCooldown?
    ensures id in Next(cfg, w, e).ledger && Retains(w.ledger[id], Next(cfg, w, e).ledger[id])
  {
    assert Safe1(cfg, w, id);
  }

  lemma UntouchedExtends(w: World, w': World, id: Id)
    requires Untouched(w, w', id) && id in w.ledger
    ensures id in w'.ledger && Retains(w.ledger[id], w'.ledger[id])
  {
  }

  lemma RestartExtends(w: World, id: Id)
    requires id in w.ledger
    ensures id in Crash(w).ledger && StepExtends(w.ledger[id], Crash(w).ledger[id])
  {
  }

  lemma StepKeepsRecord(cfg: Config, w: World, e: Event, id: Id)
    requires Safe(cfg, w) && id in w.ledger
    ensures id in Next(cfg, w, e).ledger && StepExtends(w.ledger[id], Next(cfg, w, e).ledger[id])
    ensures !e.Restart? && !((e.AuditWriteSpec? || e.AuditWriteStatus?) && e.id == id) ==> Retains(w.ledger[id], Next(cfg, w, e).ledger[id])
  {
    if e.Restart? {
      RestartExtends(w, id);
    } else if Subject(w, e) != Some(id) {
      OthersUntouched(cfg, w, e, id);
      UntouchedExtends(w, Next(cfg, w, e), id);
    } else {
      match e
      case AuditWriteSpec(_, ok) => WriteSpecExtends(cfg, w, id, ok);
      case AuditWriteStatus(_, d, ok) => WriteStatusExtends(cfg, w, id, d, ok);
      case AuditWriteReverted(_, ok) => WriteRevertedExtends(cfg, w, id, ok);
      case ClientUpdate(_, _, _, _, _, _, _, _) => ClientExtends(cfg, w, e);
      case PolicyCreate(ok, created) => CreateExtends(cfg, w, ok, created, id);
      case PolicyMark(ok) => MarkExtends(cfg, w, ok, id);
      case AuditDecide(_, _, _) => RecordStepsExtend(cfg, w, e, id);
      case AuditRelease(_, _, _) => RecordStepsExtend(cfg, w, e, id);
      case _ => OtherStepsExtend(cfg, w, e, id);
    }
  }

  /** This step loses an execution of the record's held half: the operator goes down, or the write
      the release is at does not reach the store. */
  predicate LosesRelease(w: World, e: Event, id: Id) {
    id in w.apcs && Releasing(w.apcs[id])
    && (e.Restart?
        || (e.AuditWriteSpec? && e.id == id && w.apcs[id].ASpec? && !Lands(w, id, w.apcs[id].base.version, e.ok))
        || (e.AuditWriteStatus? && e.id == id && w.apcs[id].AStatus? && w.apcs[id].since <= e.d <= w.now
            && !Lands(w, id, w.apcs[id].base.version, e.ok)))
  }

  lemma WriteStatusLoses(cfg: Config, w: World, e: Event)
    requires Safe(cfg, w) && e.AuditWriteStatus? && e.id in w.ledger
    ensures e.id in Next(cfg, w, e).ledger
    ensures Next(cfg, w, e).ledger[e.id].lostRuns == w.ledger[e.id].lostRuns + if LosesRelease(w, e, e.id) then 1 else 0
  {
    assert Safe1(cfg, w, e.id);
  }

  lemma WriteSpecLoses(cfg: Config, w: World, e: Event)
    requires Safe(cfg, w) && e.AuditWriteSpec? && e.id in w.ledger
    ensures e.id in Next(cfg, w, e).ledger
    ensures Next(cfg, w, e).ledger[e.id].lostRuns == w.ledger[e.id].lostRuns + if LosesRelease(w, e, e.id) then 1 else 0
  {
    assert Safe1(cfg, w, e.id);
    if e.id in w.apcs && w.apcs[e.id].ASpec? && Lands(w, e.id, w.apcs[e.id].base.version, e.ok) {
      StepAdmitsOwnUpdate(cfg, w, e.id, e.ok);
    }
  }

  /** The count of lost executions goes up, by one, in exactly the steps that lose one. */
  lemma StepLosesByFailure(cfg: Config, w: World, e: Event, id: Id)
    requires Safe(cfg, w) && id in w.ledger
    ensures id in Next(cfg, w, e).ledger
    ensures Next(cfg, w, e).ledger[id].lostRuns == w.ledger[id].lostRuns + if LosesRelease(w, e, id) then 1 else 0
  {
    assert Safe1(cfg, w, id);
    if e.AuditWriteSpec? && e.id == id {
      WriteSpecLoses(cfg, w, e);
    } else if e.AuditWriteStatus? && e.id == id {
      WriteStatusLoses(cfg, w, e);
    } else {
      StepKeepsRecord(cfg, w, e, id);
    }
  }

  lemma {:induction false} LostExactlyByFailure(cfg: Config, w: World, es: seq<Event>, e: Event, id: Id)
    requires ValidConfig(cfg) && Init(w) && id in Run(cfg, w, es).ledger
    ensures var v := Run(cfg, w, es);
            && id in Next(cfg, v, e).ledger
            && Next(cfg, v, e).ledger[id].lostRuns == v.ledger[id].lostRuns + if LosesRelease(v, e, id) then 1 else 0
  {
    RunKeepsSafe(cfg, w, es);
    StepLosesByFailure(cfg, Run(cfg, w, es), e, id);
  }

  /** From any reachable state one more step keeps what is recorded, with the phase moving one place at most. */
  lemma {:induction false} EveryStepExtends(cfg: Config, w: World, es: seq<Event>, e: Event, id: Id)
    requires ValidConfig(cfg) && Init(w) && id in Run(cfg, w, es).ledger
    ensures var v := Run(cfg, w, es);
            id in Next(cfg, v, e).ledger && StepExtends(v.ledger[id], Next(cfg, v, e).ledger[id])
  {
    RunKeepsSafe(cfg, w, es);
    StepKeepsRecord(cfg, Run(cfg, w, es), e, id);
  }

  /** Over any stretch of any run: phases move only from empty to Pending to one end and then stay,
      records are append-only, verdicts are write-once. */
  lemma {:induction false} LaterStatesExtend(cfg: Config, w: World, es: seq<Event>, more: seq<Event>, id: Id)
    requires ValidConfig(cfg) && Init(w)
    requires id in Run(cfg, w, es).ledger
    ensures id in Run(cfg, w, es + more).ledger
    ensures Extends(Run(cfg, w, es).ledger[id], Run(cfg, w, es + more).ledger[id])
    decreases |more|
  {
    if more == [] {
      assert es + more == es;
    } else {
      var n := |more| - 1;
      LaterStatesExtend(cfg, w, es, more[..n], id);
      var before := Run(cfg, w, es + more[..n]);
      RunKeepsSafe(cfg, w, es + more[..n]);
      StepKeepsRecord(cfg, before, more[n], id);
      assert (es + more)[..|es + more| - 1] == es + more[..n];
      assert Run(cfg, w, es + more) == Next(cfg, before, more[n]);
    }
  }
}
