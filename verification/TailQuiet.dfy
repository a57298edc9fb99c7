/**
 The quiet period after a gate when reconciles look around in its tail.
 */
module TailQuiet {
  import opened Common
  import opened Protocol
  import opened GateInvariant
  import opened TriggerSpacing
  import opened OneGate
  import opened ResolvedGate

  /*
   In an orderly run evaluations that do not trigger may fall into the tail of a resolution and open
   the window there, and a reconcile that read the policy before startCooldown does not know of the
   cooldown. What is left of the quiet period is `duration`, less the delay with which a reconcile
   looks at the gate after having taken its time.
  */

  // ---------------------------------------------------------------------------------------
  // The invariant
  // ---------------------------------------------------------------------------------------

  /** The gate was resolved at d: the window begins no earlier than lag before d, and a reconcile that
      finds it open took its time at d or later. */
  ghost predicate Settled(w: World, d: int, lag: nat) {
    && d <= w.now
    && (w.window.Some? ==> w.window.value >= d - lag)
    && (w.ppc.PEvaluate? ==> w.ppc.t >= d - lag)
    && (Reading(w.ppc) && w.window.Some? ==> w.ppc.t >= d)
    && !w.ppc.PCreate? && !w.ppc.PMark?
  }

  ghost predicate PendingQuiet(w: World) {
    forall id: Id :: PendingGate(w, id) ==> w.window == None
  }

  ghost predicate TailsSettled(w: World, lag: nat) {
    forall id: Id :: TailAt(w, id) ==> Settled(w, DecidedAt(w.apcs[id]), lag)
  }

  ghost predicate LastSettled(w: World, lag: nat) {
    w.marks != [] && w.marks[|w.marks| - 1].CooldownStarted? ==> Settled(w, w.marks[|w.marks| - 1].d, lag)
  }

  /** A trigger that directly follows a cooldown's start in the history. */
  ghost predicate Delayed(cfg: Config, marks: seq<Mark>, lag: nat) {
    forall i :: 0 <= i < |marks| - 1 && marks[i].CooldownStarted? && marks[i + 1].Triggered? ==>
      marks[i + 1].t >= marks[i].d + Max(0, cfg.duration - lag)
  }

  ghost predicate TailInvariant(cfg: Config, w: World, lag: nat) {
    PendingQuiet(w) && TailsSettled(w, lag) && LastSettled(w, lag) && Delayed(cfg, w.marks, lag)
  }

  // ---------------------------------------------------------------------------------------
  // Every orderly step keeps it
  // ---------------------------------------------------------------------------------------

  /** Nothing but time, the window and the policy reconcile moved, and whatever was settled stays so. */
  lemma SettledStays(cfg: Config, w: World, w': World, lag: nat)
    requires TailInvariant(cfg, w, lag) && NoneAdded(w, w') && w'.marks == w.marks
    requires forall id: Id :: TailAt(w', id) ==> TailAt(w, id) && w'.apcs[id] == w.apcs[id]
    requires forall d: int :: Settled(w, d, lag) ==> Settled(w', d, lag)
    requires w'.window == w.window || w'.window == None
    ensures TailInvariant(cfg, w', lag)
  {
  }

  lemma QuietEvaluationKeeps(cfg: Config, w: World, w': World, lag: nat)
    requires TailInvariant(cfg, w, lag) && OneGateInvariant(w) && w.ppc.PEvaluate? && FiredOrNot(cfg, w, w') && w'.ppc.PFinish?
    requires w'.now == w.now && w'.audits == w.audits && w'.apcs == w.apcs
    ensures TailInvariant(cfg, w', lag)
  {
    forall id: Id
      ensures !PendingGate(w', id)
      ensures TailAt(w', id) ==> Settled(w', DecidedAt(w'.apcs[id]), lag)
    {
      assert !PendingGate(w, id);
      assert TailAt(w', id) ==> TailAt(w, id);
    }
  }

  lemma FiringKeeps(cfg: Config, w: World, w': World, lag: nat)
    requires TailInvariant(cfg, w, lag) && OneGateInvariant(w) && w.ppc.PEvaluate? && FiredOrNot(cfg, w, w') && w'.ppc.PCreate?
    requires w'.audits == w.audits && w'.apcs == w.apcs && 0 < cfg.duration
    requires forall id: Id :: !TailAt(w, id)
    ensures TailInvariant(cfg, w', lag)
  {
    forall id: Id
      ensures !PendingGate(w', id) && !TailAt(w', id)
    {
      assert !PendingGate(w, id) && !TailAt(w, id);
    }
    assert w'.marks[..|w.marks|] == w.marks && w'.marks[|w.marks|] == Triggered(w.ppc.t);
    assert Delayed(cfg, w'.marks, lag);
  }

  lemma EvaluateKeepsTail(cfg: Config, w: World, e: Event, lag: nat)
    requires TailInvariant(cfg, w, lag) && OneGateInvariant(w) && Obeys(cfg, TriggersOutsideTails, w, e)
    requires e.PolicyEvaluate? && 0 < cfg.duration
    ensures TailInvariant(cfg, Next(cfg, w, e), lag)
  {
    if w.ppc.PEvaluate? {
      EvaluationOutcome(cfg, w, e.listOk, e.sample, e.matched, e.results);
      var w' := Next(cfg, w, e);
      if w' == w {
      } else if w'.ppc.PCreate? {
        FiringKeeps(cfg, w, w', lag);
      } else {
        QuietEvaluationKeeps(cfg, w, w', lag);
      }
    }
  }

  lemma CreateKeepsTail(cfg: Config, w: World, ok: bool, id: Id, lag: nat)
    requires TailInvariant(cfg, w, lag) && cfg.gate >= 0
    ensures TailInvariant(cfg, PolicyCreateStep(cfg, w, ok, id), lag)
  {
    if w.ppc.PCreate? {
      var w' := PolicyCreateStep(cfg, w, ok, id);
      assert NoneAdded(w, w') && w'.apcs == w.apcs && w'.marks == w.marks;
      assert forall d: int :: !Settled(w, d, lag);
    }
  }

  lemma MarkKeepsTail(cfg: Config, w: World, ok: bool, lag: nat)
    requires TailInvariant(cfg, w, lag)
    ensures TailInvariant(cfg, PolicyMarkStep(w, ok), lag)
  {
    if w.ppc.PMark? {
      var w' := PolicyMarkStep(w, ok);
      assert w'.window == None && w'.apcs == w.apcs && w'.marks == w.marks;
      assert forall d: int :: !Settled(w, d, lag);
      assert forall other: Id :: TailAt(w', other) ==> TailAt(w, other);
    }
  }

  lemma LookFrame(cfg: Config, w: World, e: Event)
    requires e.PolicyRead? || e.PolicyCheckGate? || e.PolicyFinish?
    ensures var w' := Next(cfg, w, e);
            && w'.audits == w.audits && w'.apcs == w.apcs && w'.marks == w.marks && w'.now == w.now && w'.window == w.window
            && (w'.ppc == w.ppc || w'.ppc.PIdle? || w'.ppc.PFinish?
                || (w.ppc.PIdle? && Reading(w'.ppc) && w'.ppc.t == w.now)
                || (e.PolicyCheckGate? && w.ppc.PCheckGate? && w'.ppc.PEvaluate? && w'.ppc.t == w.ppc.t))
  {
  }

  lemma LookKeepsTail(cfg: Config, w: World, e: Event, lag: nat)
    requires TailInvariant(cfg, w, lag) && Obeys(cfg, PromptChecks(lag), w, e)
    requires e.PolicyRead? || e.PolicyCheckGate? || e.PolicyFinish?
    ensures TailInvariant(cfg, Next(cfg, w, e), lag)
  {
    LookFrame(cfg, w, e);
    LookedKeepsTail(cfg, w, Next(cfg, w, e), lag);
  }

  lemma LookedKeepsTail(cfg: Config, w: World, w': World, lag: nat)
    requires TailInvariant(cfg, w, lag)
    requires w'.audits == w.audits && w'.apcs == w.apcs && w'.marks == w.marks && w'.now == w.now && w'.window == w.window
    requires w'.ppc == w.ppc || w'.ppc.PIdle? || w'.ppc.PFinish? || (w.ppc.PIdle? && Reading(w'.ppc) && w'.ppc.t == w.now)
             || (w.ppc.PCheckGate? && w.now - w.ppc.t <= lag && w'.ppc.PEvaluate? && w'.ppc.t == w.ppc.t)
    ensures TailInvariant(cfg, w', lag)
  {
    assert NoneAdded(w, w');
    SettledStays(cfg, w, w', lag);
  }

  lemma EnvironmentKeepsTail(cfg: Config, w: World, e: Event, lag: nat)
    requires TailInvariant(cfg, w, lag)
    requires e.Tick? || e.Restart? || e.TouchPolicy? || e.SinkWrite?
    ensures TailInvariant(cfg, Next(cfg, w, e), lag)
  {
    var w' := Next(cfg, w, e);
    assert NoneAdded(w, w');
    assert forall id: Id :: TailAt(w', id) ==> TailAt(w, id) && w'.apcs[id] == w.apcs[id];
    SettledStays(cfg, w, w', lag);
  }

  /** A gate that is resolved leaves an empty window behind and no reconcile past gate 0. */
  lemma NewTailSettled(w: World, w': World, id: Id, lag: nat)
    requires PendingGate(w, id) && PendingQuiet(w) && OneGateInvariant(w)
    requires w'.window == w.window && w'.ppc == w.ppc && w'.now == w.now
    requires TailAt(w', id) && DecidedAt(w'.apcs[id]) <= w.now
    ensures Settled(w', DecidedAt(w'.apcs[id]), lag)
  {
  }

  lemma AuditSideKeepsTailsSettled(cfg: Config, w: World, e: Event, lag: nat)
    requires Safe(cfg, w) && TailInvariant(cfg, w, lag) && OneGateInvariant(w)
    requires ByAuditReconciler(e) || e.ClientUpdate?
    ensures PendingQuiet(Next(cfg, w, e)) && TailsSettled(Next(cfg, w, e), lag)
  {
    var w' := Next(cfg, w, e);
    AuditSideSpares(cfg, w, e);
    forall id: Id
      ensures PendingGate(w', id) ==> w'.window == None
      ensures TailAt(w', id) ==> Settled(w', DecidedAt(w'.apcs[id]), lag)
    {
      TailsFrom(cfg, w, e, id);
      if TailAt(w', id) && !TailAt(w, id) {
        NewTailSettled(w, w', id, lag);
      }
    }
  }

  lemma AuditSideKeepsTail(cfg: Config, w: World, e: Event, lag: nat)
    requires Safe(cfg, w) && TailInvariant(cfg, w, lag) && OneGateInvariant(w)
    requires ByAuditReconciler(e) || e.ClientUpdate?
    ensures TailInvariant(cfg, Next(cfg, w, e), lag)
  {
    AuditSideSpares(cfg, w, e);
    AuditSideKeepsTailsSettled(cfg, w, e, lag);
    if e.AuditCooldown? {
      var w' := Next(cfg, w, e);
      CooldownOnlyMarks(cfg, w, e.id, e.ok);
      if w'.marks != w.marks {
        assert TailAt(w, e.id);
        assert w'.marks[..|w.marks|] == w.marks;
        assert Delayed(cfg, w'.marks, lag);
      }
    }
  }

  lemma StepKeepsTail(cfg: Config, w: World, e: Event, lag: nat)
    requires Safe(cfg, w) && TailInvariant(cfg, w, lag) && OneGateInvariant(w)
    requires Obeys(cfg, TriggersOutsideTails, w, e) && Obeys(cfg, PromptChecks(lag), w, e) && 0 < cfg.duration && cfg.gate >= 0
    ensures TailInvariant(cfg, Next(cfg, w, e), lag)
  {
    if e.PolicyEvaluate? {
      EvaluateKeepsTail(cfg, w, e, lag);
    } else if e.PolicyCreate? {
      CreateKeepsTail(cfg, w, e.ok, e.id, lag);
    } else if e.PolicyMark? {
      MarkKeepsTail(cfg, w, e.ok, lag);
    } else if e.PolicyFinish? || e.PolicyRead? || e.PolicyCheckGate? {
      LookKeepsTail(cfg, w, e, lag);
    } else if ByAuditReconciler(e) || e.ClientUpdate? {
      AuditSideKeepsTail(cfg, w, e, lag);
    } else {
      EnvironmentKeepsTail(cfg, w, e, lag);
    }
  }

  lemma {:induction false} RunKeepsTail(cfg: Config, w: World, es: seq<Event>, lag: nat)
    requires ValidConfig(cfg) && Init(w) && OrderlyRun(cfg, w, es) && Throughout(cfg, w, es, PromptChecks(lag))
    requires 0 < cfg.duration && cfg.gate >= 0
    ensures TailInvariant(cfg, Run(cfg, w, es), lag)
  {
    if es != [] {
      var init := es[..|es| - 1];
      ThroughoutPrefix(cfg, w, es, ReferencesLand);
      ThroughoutPrefix(cfg, w, es, TriggersOutsideTails);
      ThroughoutPrefix(cfg, w, es, PromptChecks(lag));
      RunKeepsTail(cfg, w, init, lag);
      RunKeepsSafe(cfg, w, init);
      RunKeepsOneGate(cfg, w, init);
      StepKeepsTail(cfg, Run(cfg, w, init), es[|es| - 1], lag);
    }
  }

  /** The first trigger after startCooldown(d) comes at d + duration - lag or later, and not before d. */
  lemma {:induction false} TailDelay(cfg: Config, w: World, es: seq<Event>, lag: nat, i: nat)
    requires ValidConfig(cfg) && Init(w) && OrderlyRun(cfg, w, es) && Throughout(cfg, w, es, PromptChecks(lag))
    requires 0 < cfg.duration && cfg.gate >= 0
    requires var marks := Run(cfg, w, es).marks;
             i + 1 < |marks| && marks[i].CooldownStarted? && marks[i + 1].Triggered?
    ensures var marks := Run(cfg, w, es).marks;
            marks[i + 1].t >= marks[i].d + Max(0, cfg.duration - lag)
  {
    RunKeepsTail(cfg, w, es, lag);
  }
}
