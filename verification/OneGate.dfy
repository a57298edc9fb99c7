/**
 One open gate at a time, and the policy refers to it.
 */
module OneGate {
  import opened Common
  import opened ApprovalApi
  import opened Protocol
  import opened GateInvariant
  import opened TriggerSpacing

  // ---------------------------------------------------------------------------------------
  // Hypotheses on a run
  // ---------------------------------------------------------------------------------------

  ghost predicate PendingGate(w: World, id: Id) {
    id in w.audits && w.audits[id].audit.status.phase == Pending
  }

  predicate InTail(pc: AuditPc) {
    pc.AReadPolicy? || pc.ACool?
  }

  ghost predicate TailAt(w: World, id: Id) {
    id in w.apcs && InTail(w.apcs[id])
  }

  /** The reconcile is about to write the reference to the gate it opened. */
  predicate Opening(pc: PolicyPc) {
    pc.PFinish? && pc.gate.Some?
  }

  /** What a run may be asked to keep to. Two things can leave a gate open behind the policy's back,
      and the first two rules exclude one each: the status write that closes a reconcile which
      opened a gate is lost, so nothing refers to the gate; or the policy triggers in the tail of a
      resolution, between the write that ends the gate and startCooldown, and startCooldown then
      wipes the reference to the newer gate. Neither rule is enough alone: `LostReferenceOpensSecondGate`
      and `TailTriggerLosesReference`. The other two are for the quiet period after a gate. */
  datatype Rule = ReferencesLand | TriggersOutsideTails | EvaluationsOutsideTails | PromptChecks(lag: nat)

  ghost predicate Obeys(cfg: Config, rule: Rule, w: World, e: Event) {
    match rule
    case ReferencesLand =>
      && (e.PolicyFinish? && Opening(w.ppc) ==> e.ok && w.ppc.snap.version == w.policy.version)
      && (e.Restart? ==> !Opening(w.ppc))
    case TriggersOutsideTails =>
      Fires(cfg, w, e) ==> forall id: Id :: !TailAt(w, id)
    case EvaluationsOutsideTails =>
      e.PolicyEvaluate? ==> forall id: Id :: !TailAt(w, id)
    case PromptChecks(lag) =>
      // a reconcile looks at the open gate within `lag` of taking its time
      e.PolicyCheckGate? && w.ppc.PCheckGate? ==> w.now - w.ppc.t <= lag
  }

  ghost predicate Throughout(cfg: Config, w: World, es: seq<Event>, rule: Rule) {
    forall k :: 0 <= k < |es| ==> Obeys(cfg, rule, Run(cfg, w, es[..k]), es[k])
  }

  ghost predicate Orderly(cfg: Config, w: World, e: Event) {
    Obeys(cfg, ReferencesLand, w, e) && Obeys(cfg, TriggersOutsideTails, w, e)
  }

  ghost predicate OrderlyRun(cfg: Config, w: World, es: seq<Event>) {
    Throughout(cfg, w, es, ReferencesLand) && Throughout(cfg, w, es, TriggersOutsideTails)
  }

  lemma {:induction false} ThroughoutPrefix(cfg: Config, w: World, es: seq<Event>, rule: Rule)
    requires es != [] && Throughout(cfg, w, es, rule)
    ensures Throughout(cfg, w, es[..|es| - 1], rule)
    ensures Obeys(cfg, rule, Run(cfg, w, es[..|es| - 1]), es[|es| - 1])
  {
    var init := es[..|es| - 1];
    forall k | 0 <= k < |init|
      ensures Obeys(cfg, rule, Run(cfg, w, init[..k]), init[k])
    {
      assert init[..k] == es[..k];
      assert Obeys(cfg, rule, Run(cfg, w, es[..k]), es[k]);
    }
  }

  // ---------------------------------------------------------------------------------------
  // The invariant
  // ---------------------------------------------------------------------------------------

  /** The reconcile has passed gate 0. */
  predicate PastGate(pc: PolicyPc) {
    pc.PEvaluate? || pc.PCreate? || pc.PMark?
  }

  ghost predicate AtMostOne(w: World) {
    && (forall i: Id, j: Id :: PendingGate(w, i) && PendingGate(w, j) ==> i == j)
    && (forall i: Id, j: Id :: TailAt(w, i) && TailAt(w, j) ==> i == j)
    && (forall i: Id, j: Id :: TailAt(w, i) ==> !PendingGate(w, j))
  }

  ghost predicate Referenced(w: World) {
    && (forall id: Id :: PendingGate(w, id) ==>
          w.policy.pendingGateRef == Some(id) || (w.ppc.PFinish? && w.ppc.gate == Some(id)))
    && (PastGate(w.ppc) ==> w.ppc.snap.pendingGateRef == None && forall id: Id :: !PendingGate(w, id))
    && (w.ppc.PCreate? || w.ppc.PMark? ==> forall id: Id :: !TailAt(w, id))
  }

  /** What the policy reconcile will write back does not contradict what is stored. */
  ghost predicate WriteBackSound(w: World) {
    && (w.ppc.PCheckGate? ==> w.ppc.snap.pendingGateRef.Some? && w.policy.pendingGateRef in {None, w.ppc.snap.pendingGateRef})
    && (w.ppc.PFinish? && w.ppc.gate.None? && w.ppc.snap.pendingGateRef.Some? ==>
          w.policy.pendingGateRef in {None, w.ppc.snap.pendingGateRef})
    && (w.ppc.PFinish? && w.ppc.gate.None? && w.ppc.snap.pendingGateRef.None? ==> forall id: Id :: !PendingGate(w, id))
    && (Opening(w.ppc) ==> w.ppc.snap.pendingGateRef == w.ppc.gate && forall id: Id :: PendingGate(w, id) ==> w.ppc.gate == Some(id))
  }

  ghost predicate OneGateInvariant(w: World) {
    AtMostOne(w) && Referenced(w) && WriteBackSound(w)
  }

  // ---------------------------------------------------------------------------------------
  // Every orderly step keeps it
  // ---------------------------------------------------------------------------------------

  /** The same gates and tails, or fewer. */
  ghost predicate NoneAdded(w: World, w': World) {
    (forall id: Id :: PendingGate(w', id) ==> PendingGate(w, id)) && (forall id: Id :: TailAt(w', id) ==> TailAt(w, id))
  }

  lemma EvaluateKeepsOneGate(cfg: Config, w: World, e: Event)
    requires OneGateInvariant(w) && Orderly(cfg, w, e) && e.PolicyEvaluate?
    ensures OneGateInvariant(Next(cfg, w, e))
  {
    if w.ppc.PEvaluate? {
      EvaluationOutcome(cfg, w, e.listOk, e.sample, e.matched, e.results);
      EvaluatedKeepsOneGate(cfg, w, Next(cfg, w, e));
    }
  }

  /** A trigger needs to see no tail; anything else an evaluation does is harmless. */
  lemma EvaluatedKeepsOneGate(cfg: Config, w: World, w': World)
    requires OneGateInvariant(w) && w.ppc.PEvaluate? && (w' == w || FiredOrNot(cfg, w, w'))
    requires w'.policy == w.policy && w'.audits == w.audits && w'.apcs == w.apcs
    requires w'.ppc.PCreate? ==> forall id: Id :: !TailAt(w, id)
    ensures OneGateInvariant(w')
  {
    assert NoneAdded(w, w') && NoneAdded(w', w);
  }

  lemma CreateKeepsOneGate(cfg: Config, w: World, ok: bool, id: Id)
    requires OneGateInvariant(w)
    ensures OneGateInvariant(PolicyCreateStep(cfg, w, ok, id))
  {
    assert NoneAdded(w, PolicyCreateStep(cfg, w, ok, id));
  }

  lemma MarkKeepsOneGate(cfg: Config, w: World, ok: bool)
    requires OneGateInvariant(w)
    ensures OneGateInvariant(PolicyMarkStep(w, ok))
  {
    var w' := PolicyMarkStep(w, ok);
    if w.ppc.PMark? {
      forall other: Id
        ensures PendingGate(w', other) ==> other == w.ppc.id && w'.ppc.PFinish? && w'.ppc.gate == Some(other)
        ensures !TailAt(w', other)
      {
        assert !PendingGate(w, other) && !TailAt(w, other);
      }
    }
  }

  lemma FinishKeepsOneGate(cfg: Config, w: World, e: Event)
    requires OneGateInvariant(w) && Orderly(cfg, w, e) && e.PolicyFinish?
    ensures OneGateInvariant(Next(cfg, w, e))
  {
    assert NoneAdded(w, Next(cfg, w, e));
  }

  lemma ReadKeepsOneGate(cfg: Config, w: World, e: Event)
    requires OneGateInvariant(w) && (e.PolicyRead? || e.PolicyCheckGate?)
    ensures OneGateInvariant(Next(cfg, w, e))
  {
    assert NoneAdded(w, Next(cfg, w, e));
  }

  lemma EnvironmentKeepsOneGate(cfg: Config, w: World, e: Event)
    requires OneGateInvariant(w) && Orderly(cfg, w, e)
    requires e.Tick? || e.Restart? || e.TouchPolicy? || e.SinkWrite?
    ensures OneGateInvariant(Next(cfg, w, e))
  {
    assert NoneAdded(w, Next(cfg, w, e));
  }

  /** When the resolution whose tail this is was decided. */
  function DecidedAt(pc: AuditPc): int
    requires InTail(pc)
  {
    pc.d
  }

  /** Nothing but the mark of a new gate makes a record Pending; nothing but the end of a Pending
      one starts a tail, with a decision time in the past that stays. */
  ghost predicate AddsNone(w: World, w': World, id: Id) {
    && (PendingGate(w', id) ==> PendingGate(w, id))
    && (TailAt(w', id) ==>
          (TailAt(w, id) && DecidedAt(w'.apcs[id]) == DecidedAt(w.apcs[id]))
          || (PendingGate(w, id) && !PendingGate(w', id) && DecidedAt(w'.apcs[id]) <= w.now))
  }

  lemma WriteStatusAddsNone(cfg: Config, w: World, id: Id, d: int, ok: bool)
    requires Safe(cfg, w)
    ensures AddsNone(w, AuditWriteStatusStep(w, id, d, ok), id)
  {
    assert Safe1(cfg, w, id);
  }

  lemma DecideAddsNone(cfg: Config, w: World, e: Event)
    requires e.AuditDecide?
    ensures AddsNone(w, Next(cfg, w, e), e.id)
  {
  }

  lemma WriteSpecAddsNone(cfg: Config, w: World, e: Event)
    requires Safe(cfg, w) && e.AuditWriteSpec?
    ensures AddsNone(w, Next(cfg, w, e), e.id)
  {
    assert Safe1(cfg, w, e.id);
  }

  lemma ReadsAddNone(cfg: Config, w: World, e: Event)
    requires e.AuditRead? || e.AuditRelease?
    ensures AddsNone(w, Next(cfg, w, e), e.id)
  {
  }

  lemma ClientAddsNone(cfg: Config, w: World, e: Event)
    requires Safe(cfg, w) && e.ClientUpdate?
    ensures AddsNone(w, Next(cfg, w, e), e.id)
  {
    assert Safe1(cfg, w, e.id);
  }

  lemma SubjectAddsNone(cfg: Config, w: World, e: Event)
    requires Safe(cfg, w) && (ByAuditReconciler(e) || e.ClientUpdate?)
    ensures AddsNone(w, Next(cfg, w, e), e.id)
  {
    if e.AuditWriteStatus? {
      WriteStatusAddsNone(cfg, w, e.id, e.d, e.ok);
    } else if e.AuditDecide? {
      DecideAddsNone(cfg, w, e);
    } else if e.AuditWriteSpec? {
      WriteSpecAddsNone(cfg, w, e);
    } else if e.AuditRead? || e.AuditRelease? {
      ReadsAddNone(cfg, w, e);
    } else if e.ClientUpdate? {
      ClientAddsNone(cfg, w, e);
    } else {
      assert Safe1(cfg, w, e.id);
    }
  }

  /** A step about one record, which at most turns its open gate into a tail and, from a tail, drops
      the policy's reference. */
  lemma OneRecordKeeps(w: World, w': World, id: Id)
    requires OneGateInvariant(w) && w'.ppc == w.ppc && AddsNone(w, w', id)
    requires forall other: Id :: other != id ==>
               (PendingGate(w', other) <==> PendingGate(w, other)) && (TailAt(w', other) <==> TailAt(w, other))
    requires w'.policy.pendingGateRef == w.policy.pendingGateRef || (TailAt(w, id) && w'.policy.pendingGateRef == None)
    ensures OneGateInvariant(w')
  {
  }

  lemma AuditSideKeepsOneGate(cfg: Config, w: World, e: Event)
    requires Safe(cfg, w) && OneGateInvariant(w) && (ByAuditReconciler(e) || e.ClientUpdate?)
    ensures OneGateInvariant(Next(cfg, w, e))
  {
    var w' := Next(cfg, w, e);
    AuditSideSpares(cfg, w, e);
    SubjectAddsNone(cfg, w, e);
    forall other: Id | other != e.id
      ensures PendingGate(w', other) <==> PendingGate(w, other)
      ensures TailAt(w', other) <==> TailAt(w, other)
    {
      OthersUntouched(cfg, w, e, other);
    }
    if e.AuditCooldown? {
      CooldownOnlyMarks(cfg, w, e.id, e.ok);
    }
    OneRecordKeeps(w, w', e.id);
  }

  lemma StepKeepsOneGate(cfg: Config, w: World, e: Event)
    requires Safe(cfg, w) && OneGateInvariant(w) && Orderly(cfg, w, e)
    ensures OneGateInvariant(Next(cfg, w, e))
  {
    if e.PolicyEvaluate? {
      EvaluateKeepsOneGate(cfg, w, e);
    } else if e.PolicyCreate? {
      CreateKeepsOneGate(cfg, w, e.ok, e.id);
    } else if e.PolicyMark? {
      MarkKeepsOneGate(cfg, w, e.ok);
    } else if e.PolicyFinish? {
      FinishKeepsOneGate(cfg, w, e);
    } else if e.PolicyRead? || e.PolicyCheckGate? {
      ReadKeepsOneGate(cfg, w, e);
    } else if ByAuditReconciler(e) || e.ClientUpdate? {
      AuditSideKeepsOneGate(cfg, w, e);
    } else {
      EnvironmentKeepsOneGate(cfg, w, e);
    }
  }

  lemma {:induction false} RunKeepsOneGate(cfg: Config, w: World, es: seq<Event>)
    requires ValidConfig(cfg) && Init(w) && OrderlyRun(cfg, w, es)
    ensures OneGateInvariant(Run(cfg, w, es))
  {
    if es != [] {
      ThroughoutPrefix(cfg, w, es, ReferencesLand);
      ThroughoutPrefix(cfg, w, es, TriggersOutsideTails);
      RunKeepsOneGate(cfg, w, es[..|es| - 1]);
      RunKeepsSafe(cfg, w, es[..|es| - 1]);
      StepKeepsOneGate(cfg, Run(cfg, w, es[..|es| - 1]), es[|es| - 1]);
    }
  }

  /** Over every orderly run at most one record is Pending, and the policy refers to it, at the latest
      once the reconcile that opened it has ended. */
  lemma {:induction false} OneOpenGate(cfg: Config, w: World, es: seq<Event>, i: Id, j: Id)
    requires ValidConfig(cfg) && Init(w) && OrderlyRun(cfg, w, es)
    requires PendingGate(Run(cfg, w, es), i) && PendingGate(Run(cfg, w, es), j)
    ensures i == j
    ensures var w' := Run(cfg, w, es);
            w'.policy.pendingGateRef == Some(i) || (w'.ppc.PFinish? && w'.ppc.gate == Some(i))
  {
    RunKeepsOneGate(cfg, w, es);
  }

  /** So no trigger happens, and no pre-gate action runs, while a gate is open. */
  lemma {:induction false} NoTriggerBehindOpenGate(cfg: Config, w: World, es: seq<Event>, e: Event, id: Id)
    requires ValidConfig(cfg) && Init(w) && OrderlyRun(cfg, w, es)
    requires PendingGate(Run(cfg, w, es), id) && e.PolicyEvaluate?
    ensures Next(cfg, Run(cfg, w, es), e) == Run(cfg, w, es)
  {
    RunKeepsOneGate(cfg, w, es);
  }
}
