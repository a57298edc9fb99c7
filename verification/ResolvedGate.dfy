/**
 The quiet period after a gate was resolved.
 */
module ResolvedGate {
  import opened Common
  import opened Protocol
  import opened GateInvariant
  import opened TriggerSpacing
  import opened OneGate

  /*
   In a calm run, once startCooldown landed with decision time d, the next trigger is at or after
   d + cooldown, and at or after d + duration less the delay with which a reconcile looks at the
   gate after having taken its time.
  */

  /** References land, and nobody evaluates in a resolution's tail: more than an orderly run. */
  ghost predicate CalmRun(cfg: Config, w: World, es: seq<Event>) {
    Throughout(cfg, w, es, ReferencesLand) && Throughout(cfg, w, es, EvaluationsOutsideTails)
  }

  lemma {:induction false} CalmIsOrderly(cfg: Config, w: World, es: seq<Event>)
    requires CalmRun(cfg, w, es)
    ensures OrderlyRun(cfg, w, es)
  {
    forall k | 0 <= k < |es|
      ensures Obeys(cfg, TriggersOutsideTails, Run(cfg, w, es[..k]), es[k])
    {
      assert Obeys(cfg, EvaluationsOutsideTails, Run(cfg, w, es[..k]), es[k]);
    }
  }

  // ---------------------------------------------------------------------------------------
  // The invariant
  // ---------------------------------------------------------------------------------------

  /** While a gate is open, and until its resolution is through, the window stays empty. */
  ghost predicate WindowEmpty(w: World) {
    && (forall id: Id :: PendingGate(w, id) ==> w.window == None)
    && (forall id: Id :: TailAt(w, id) ==> w.window == None)
  }

  /** A reconcile past gate 0 took its time no earlier than `lag` before the decision. */
  ghost predicate TailTimed(w: World, lag: nat) {
    forall id: Id :: TailAt(w, id) ==>
      DecidedAt(w.apcs[id]) <= w.now && (w.ppc.PEvaluate? ==> w.ppc.t >= DecidedAt(w.apcs[id]) - lag)
  }

  predicate Reading(pc: PolicyPc) {
    pc.PCheckGate? || pc.PEvaluate?
  }

  /** What a reconcile read is what is stored while the version stands. */
  ghost predicate SnapshotSound(w: World) {
    !w.ppc.PIdle? ==>
      w.ppc.snap.version <= w.policy.version
      && (w.ppc.snap.version == w.policy.version ==> w.ppc.snap.lastTriggeredAt == w.policy.lastTriggeredAt)
  }

  /** After startCooldown(d): d is stored, the window begins no earlier than lag before d, and a
      reconcile that does not know of d yet finds the window empty. */
  ghost predicate Quiet(w: World, d: int, lag: nat) {
    && d <= w.now
    && w.policy.lastTriggeredAt == Some(d)
    && (w.window.Some? ==> w.window.value >= d - lag)
    && (Reading(w.ppc) ==> w.ppc.snap.lastTriggeredAt == Some(d) || w.window == None)
    && (w.ppc.PEvaluate? ==> w.ppc.t >= d - lag)
    && !w.ppc.PCreate? && !w.ppc.PMark?
  }

  ghost predicate Resolved(w: World, lag: nat) {
    w.marks != [] && w.marks[|w.marks| - 1].CooldownStarted? ==> Quiet(w, w.marks[|w.marks| - 1].d, lag)
  }

  /** A trigger that directly follows a cooldown's start in the history. */
  ghost predicate Respected(cfg: Config, marks: seq<Mark>, lag: nat) {
    forall i :: 0 <= i < |marks| - 1 && marks[i].CooldownStarted? && marks[i + 1].Triggered? ==>
      marks[i + 1].t >= marks[i].d + Max(cfg.cooldown, cfg.duration - lag)
  }

  ghost predicate QuietInvariant(cfg: Config, w: World, lag: nat) {
    WindowEmpty(w) && TailTimed(w, lag) && SnapshotSound(w) && Resolved(w, lag) && Respected(cfg, w.marks, lag)
  }

  // ---------------------------------------------------------------------------------------
  // Every calm step keeps it
  // ---------------------------------------------------------------------------------------

  lemma EvaluatedKeepsQuiet(cfg: Config, w: World, w': World, lag: nat)
    requires QuietInvariant(cfg, w, lag) && w.ppc.PEvaluate? && FiredOrNot(cfg, w, w') && 0 < cfg.duration
    requires forall id: Id :: !PendingGate(w, id) && !TailAt(w, id)
    requires w'.now == w.now && w'.policy == w.policy && w'.audits == w.audits && w'.apcs == w.apcs && w'.ledger == w.ledger
    ensures QuietInvariant(cfg, w', lag)
  {
    assert forall id: Id :: (PendingGate(w', id) <==> PendingGate(w, id)) && (TailAt(w', id) <==> TailAt(w, id));
    if w'.marks != w.marks {
      assert w'.marks[..|w.marks|] == w.marks && w'.marks[|w.marks|] == Triggered(w.ppc.t);
      assert Respected(cfg, w'.marks, lag);
    }
  }

  lemma EvaluateKeepsQuiet(cfg: Config, w: World, e: Event, lag: nat)
    requires QuietInvariant(cfg, w, lag) && OneGateInvariant(w) && Obeys(cfg, EvaluationsOutsideTails, w, e)
    requires e.PolicyEvaluate? && 0 < cfg.duration
    ensures QuietInvariant(cfg, Next(cfg, w, e), lag)
  {
    if w.ppc.PEvaluate? {
      EvaluationOutcome(cfg, w, e.listOk, e.sample, e.matched, e.results);
      var w' := Next(cfg, w, e);
      if w' != w {
        EvaluatedKeepsQuiet(cfg, w, w', lag);
      }
    }
  }

  lemma CreateKeepsQuiet(cfg: Config, w: World, ok: bool, id: Id, lag: nat)
    requires QuietInvariant(cfg, w, lag) && cfg.gate >= 0
    ensures QuietInvariant(cfg, PolicyCreateStep(cfg, w, ok, id), lag)
  {
    var w' := PolicyCreateStep(cfg, w, ok, id);
    assert NoneAdded(w, w');
    assert forall other: Id :: TailAt(w', other) ==> w'.apcs[other] == w.apcs[other];
  }

  lemma MarkKeepsQuiet(cfg: Config, w: World, ok: bool, lag: nat)
    requires QuietInvariant(cfg, w, lag)
    ensures QuietInvariant(cfg, PolicyMarkStep(w, ok), lag)
  {
    var w' := PolicyMarkStep(w, ok);
    if w.ppc.PMark? {
      assert w'.window == None && w'.apcs == w.apcs && w'.policy == w.policy && w'.marks == w.marks && w'.now == w.now;
      assert forall other: Id :: TailAt(w', other) ==> TailAt(w, other);
    }
  }

  lemma FinishKeepsQuiet(cfg: Config, w: World, ok: bool, lag: nat)
    requires QuietInvariant(cfg, w, lag)
    ensures QuietInvariant(cfg, PolicyFinishStep(cfg, w, ok), lag)
  {
    var w' := PolicyFinishStep(cfg, w, ok);
    assert NoneAdded(w, w') && w'.apcs == w.apcs;
  }

  lemma ReadKeepsQuiet(cfg: Config, w: World, lag: nat)
    requires QuietInvariant(cfg, w, lag)
    ensures QuietInvariant(cfg, PolicyReadStep(w), lag)
  {
    var w' := PolicyReadStep(w);
    assert NoneAdded(w, w') && w'.apcs == w.apcs;
    assert forall id: Id :: TailAt(w', id) ==> TailAt(w, id);
  }

  lemma CheckGateKeepsQuiet(cfg: Config, w: World, ok: bool, lag: nat)
    requires QuietInvariant(cfg, w, lag) && (w.ppc.PCheckGate? ==> w.now - w.ppc.t <= lag)
    ensures QuietInvariant(cfg, PolicyCheckGateStep(w, ok), lag)
  {
    var w' := PolicyCheckGateStep(w, ok);
    assert NoneAdded(w, w') && w'.apcs == w.apcs;
    assert forall id: Id :: TailAt(w', id) ==> TailAt(w, id);
  }

  lemma EnvironmentKeepsQuiet(cfg: Config, w: World, e: Event, lag: nat)
    requires QuietInvariant(cfg, w, lag)
    requires e.Tick? || e.Restart? || e.TouchPolicy? || e.SinkWrite?
    ensures QuietInvariant(cfg, Next(cfg, w, e), lag)
  {
    var w' := Next(cfg, w, e);
    assert NoneAdded(w, w');
    assert forall id: Id :: TailAt(w', id) ==> TailAt(w, id) && w'.apcs[id] == w.apcs[id];
  }

  lemma TailsFrom(cfg: Config, w: World, e: Event, id: Id)
    requires Safe(cfg, w) && (ByAuditReconciler(e) || e.ClientUpdate?)
    ensures AddsNone(w, Next(cfg, w, e), id)
  {
    if e.id == id {
      SubjectAddsNone(cfg, w, e);
    } else {
      OthersUntouched(cfg, w, e, id);
    }
  }

  lemma AuditSideKeepsTails(cfg: Config, w: World, e: Event, lag: nat)
    requires Safe(cfg, w) && QuietInvariant(cfg, w, lag) && OneGateInvariant(w)
    requires ByAuditReconciler(e) || e.ClientUpdate?
    ensures WindowEmpty(Next(cfg, w, e)) && TailTimed(Next(cfg, w, e), lag)
  {
    var w' := Next(cfg, w, e);
    AuditSideSpares(cfg, w, e);
    forall id: Id
      ensures PendingGate(w', id) || TailAt(w', id) ==> w'.window == None
      ensures TailAt(w', id) ==>
                DecidedAt(w'.apcs[id]) <= w.now && (w'.ppc.PEvaluate? ==> w'.ppc.t >= DecidedAt(w'.apcs[id]) - lag)
    {
      TailsFrom(cfg, w, e, id);
      if TailAt(w', id) && !TailAt(w, id) {
        assert PendingGate(w, id);
      }
    }
  }

  lemma AuditSideKeepsQuiet(cfg: Config, w: World, e: Event, lag: nat)
    requires Safe(cfg, w) && QuietInvariant(cfg, w, lag) && OneGateInvariant(w)
    requires ByAuditReconciler(e) || e.ClientUpdate?
    ensures QuietInvariant(cfg, Next(cfg, w, e), lag)
  {
    AuditSideSpares(cfg, w, e);
    AuditSideKeepsTails(cfg, w, e, lag);
    if e.AuditCooldown? {
      var w' := Next(cfg, w, e);
      CooldownOnlyMarks(cfg, w, e.id, e.ok);
      if w'.marks != w.marks {
        assert TailAt(w, e.id);
        assert w'.marks[..|w.marks|] == w.marks;
        assert Respected(cfg, w'.marks, lag);
      }
    }
  }

  lemma StepKeepsQuiet(cfg: Config, w: World, e: Event, lag: nat)
    requires Safe(cfg, w) && QuietInvariant(cfg, w, lag) && OneGateInvariant(w)
    requires Obeys(cfg, EvaluationsOutsideTails, w, e) && Obeys(cfg, PromptChecks(lag), w, e) && 0 < cfg.duration && cfg.gate >= 0
    ensures QuietInvariant(cfg, Next(cfg, w, e), lag)
  {
    if e.PolicyEvaluate? {
      EvaluateKeepsQuiet(cfg, w, e, lag);
    } else if e.PolicyCreate? {
      CreateKeepsQuiet(cfg, w, e.ok, e.id, lag);
    } else if e.PolicyMark? {
      MarkKeepsQuiet(cfg, w, e.ok, lag);
    } else if e.PolicyFinish? {
      FinishKeepsQuiet(cfg, w, e.ok, lag);
    } else if e.PolicyRead? {
      ReadKeepsQuiet(cfg, w, lag);
    } else if e.PolicyCheckGate? {
      CheckGateKeepsQuiet(cfg, w, e.ok, lag);
    } else if ByAuditReconciler(e) || e.ClientUpdate? {
      AuditSideKeepsQuiet(cfg, w, e, lag);
    } else {
      EnvironmentKeepsQuiet(cfg, w, e, lag);
    }
  }

  lemma {:induction false} RunKeepsQuiet(cfg: Config, w: World, es: seq<Event>, lag: nat)
    requires ValidConfig(cfg) && Init(w) && CalmRun(cfg, w, es) && Throughout(cfg, w, es, PromptChecks(lag))
    requires 0 < cfg.duration && cfg.gate >= 0
    ensures QuietInvariant(cfg, Run(cfg, w, es), lag)
  {
    if es != [] {
      var init := es[..|es| - 1];
      ThroughoutPrefix(cfg, w, es, ReferencesLand);
      ThroughoutPrefix(cfg, w, es, EvaluationsOutsideTails);
      ThroughoutPrefix(cfg, w, es, PromptChecks(lag));
      RunKeepsQuiet(cfg, w, init, lag);
      RunKeepsSafe(cfg, w, init);
      CalmIsOrderly(cfg, w, init);
      RunKeepsOneGate(cfg, w, init);
      StepKeepsQuiet(cfg, Run(cfg, w, init), es[|es| - 1], lag);
    }
  }

  /** The first trigger after a gate's resolution started the cooldown at d. */
  lemma {:induction false} GatedCooldown(cfg: Config, w: World, es: seq<Event>, lag: nat, i: nat)
    requires ValidConfig(cfg) && Init(w) && CalmRun(cfg, w, es) && Throughout(cfg, w, es, PromptChecks(lag))
    requires 0 < cfg.duration && cfg.gate >= 0
    requires var marks := Run(cfg, w, es).marks;
             i + 1 < |marks| && marks[i].CooldownStarted? && marks[i + 1].Triggered?
    ensures var marks := Run(cfg, w, es).marks;
            marks[i + 1].t >= marks[i].d + Max(cfg.cooldown, cfg.duration - lag)
  {
    RunKeepsQuiet(cfg, w, es, lag);
  }
}
