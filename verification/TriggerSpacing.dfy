/**
 How far apart triggers are, over every run.
 */
module TriggerSpacing {
  import opened Common
  import opened Executor
  import opened Protocol
  import opened GateInvariant

  /*
   Whatever writes are lost and however often the operator restarts, at least `duration`; and for a
   pipeline without a gate at least cooldown + duration after a trigger whose closing status write
   landed.
  */

  // ---------------------------------------------------------------------------------------
  // Any two triggers
  // ---------------------------------------------------------------------------------------

  /** No trigger so far is later than `t`. */
  ghost predicate AllBefore(marks: seq<Mark>, t: int) {
    forall i :: 0 <= i < |marks| && marks[i].Triggered? ==> marks[i].t <= t
  }

  predicate Timed(pc: PolicyPc) {
    pc.PCheckGate? || pc.PEvaluate? || pc.PCreate? || pc.PMark?
  }

  /** Between the trigger and the end of its window. */
  predicate Firing(pc: PolicyPc) {
    pc.PCreate? || pc.PMark?
  }

  ghost predicate Spaced(marks: seq<Mark>, gap: int) {
    forall i, j :: 0 <= i < j < |marks| && marks[i].Triggered? && marks[j].Triggered? ==> marks[j].t - marks[i].t >= gap
  }

  /** In this step the policy triggers. */
  predicate Fires(cfg: Config, w: World, e: Event) {
    e.PolicyEvaluate? && w.ppc.PEvaluate? && Next(cfg, w, e).ppc.PCreate?
  }

  /** The window never reaches back before the latest trigger: it is forgotten there, and fed only by
      evaluations that come after it. */
  ghost predicate SpacingInvariant(cfg: Config, now: int, ppc: PolicyPc, window: Option<int>, marks: seq<Mark>) {
    && AllBefore(marks, now)
    && (Timed(ppc) ==> ppc.t <= now && AllBefore(marks, ppc.t))
    && (window.Some? ==> window.value <= now && (ppc.PCheckGate? || ppc.PEvaluate? ==> window.value <= ppc.t))
    && (window.Some? && !Firing(ppc) ==> AllBefore(marks, window.value))
    && Spaced(marks, cfg.duration)
  }

  ghost predicate SpacingKept(cfg: Config, w: World) {
    SpacingInvariant(cfg, w.now, w.ppc, w.window, w.marks)
  }

  /** The evaluation ended quietly, or it fired after the window had been open for `duration`. */
  ghost predicate FiredOrNot(cfg: Config, w: World, w': World)
    requires w.ppc.PEvaluate?
  {
    var snap, t := w.ppc.snap, w.ppc.t;
    var since := if w.window.Some? then w.window.value else t;
    var cooled := snap.lastTriggeredAt.Some? ==> t - snap.lastTriggeredAt.value >= cfg.cooldown;
    || (w'.ppc == PFinish(snap, false, None) && w'.marks == w.marks
        && (w'.window == w.window || w'.window == None || (w'.window == Some(since) && cooled)))
    || (w'.ppc.PCreate? && w'.ppc.t == t && w'.ppc.snap == snap && w'.marks == w.marks + [Triggered(t)]
        && w'.window == Some(since) && t - since >= cfg.duration && cooled)
  }

  lemma EvaluationSpares(cfg: Config, w: World, listOk: bool, sample: Sample, matched: Option<seq<Target>>,
                         results: seq<Result<string>>)
    ensures var w' := PolicyEvaluateStep(cfg, w, listOk, sample, matched, results);
            w'.now == w.now && w'.policy == w.policy && w'.landed == w.landed
  {
  }

  lemma EvaluationSparesRecords(cfg: Config, w: World, listOk: bool, sample: Sample, matched: Option<seq<Target>>,
                                results: seq<Result<string>>)
    ensures var w' := PolicyEvaluateStep(cfg, w, listOk, sample, matched, results);
            w'.audits == w.audits && w'.apcs == w.apcs && w'.ledger == w.ledger
  {
  }

  /** What an evaluation does to the window and to the list of triggers. */
  lemma EvaluationOutcome(cfg: Config, w: World, listOk: bool, sample: Sample, matched: Option<seq<Target>>,
                          results: seq<Result<string>>)
    requires w.ppc.PEvaluate?
    ensures var w' := PolicyEvaluateStep(cfg, w, listOk, sample, matched, results);
            && w'.now == w.now && w'.policy == w.policy && w'.landed == w.landed && w'.audits == w.audits && w'.apcs == w.apcs
            && w'.ledger == w.ledger
            && (w' == w || FiredOrNot(cfg, w, w'))
  {
    EvaluationSpares(cfg, w, listOk, sample, matched, results);
    EvaluationSparesRecords(cfg, w, listOk, sample, matched, results);
  }

  lemma EvaluatedKeepsSpacing(cfg: Config, w: World, w': World)
    requires SpacingKept(cfg, w) && w.ppc.PEvaluate? && FiredOrNot(cfg, w, w') && w'.now == w.now
    ensures SpacingKept(cfg, w')
  {
  }

  lemma EvaluateKeepsSpacing(cfg: Config, w: World, listOk: bool, sample: Sample, matched: Option<seq<Target>>,
                             results: seq<Result<string>>)
    requires SpacingKept(cfg, w)
    ensures SpacingKept(cfg, PolicyEvaluateStep(cfg, w, listOk, sample, matched, results))
  {
    if w.ppc.PEvaluate? {
      EvaluationOutcome(cfg, w, listOk, sample, matched, results);
      var w' := PolicyEvaluateStep(cfg, w, listOk, sample, matched, results);
      if w' != w {
        EvaluatedKeepsSpacing(cfg, w, w');
      }
    }
  }

  lemma CreateKeepsSpacing(cfg: Config, w: World, ok: bool, id: Id)
    requires SpacingKept(cfg, w)
    ensures SpacingKept(cfg, PolicyCreateStep(cfg, w, ok, id))
  {
  }

  lemma MarkKeepsSpacing(cfg: Config, w: World, ok: bool)
    requires SpacingKept(cfg, w)
    ensures SpacingKept(cfg, PolicyMarkStep(w, ok))
  {
  }

  lemma ReadKeepsSpacing(cfg: Config, w: World)
    requires SpacingKept(cfg, w)
    ensures SpacingKept(cfg, PolicyReadStep(w))
  {
  }

  lemma FinishKeepsSpacing(cfg: Config, w: World, ok: bool)
    requires SpacingKept(cfg, w)
    ensures SpacingKept(cfg, PolicyCheckGateStep(w, ok))
    ensures SpacingKept(cfg, PolicyFinishStep(cfg, w, ok))
  {
  }

  lemma EnvironmentKeepsSpacing(cfg: Config, w: World, e: Event)
    requires SpacingKept(cfg, w)
    requires e.Tick? || e.Restart? || e.TouchPolicy? || e.SinkWrite?
    ensures SpacingKept(cfg, Next(cfg, w, e)) && Next(cfg, w, e).marks == w.marks
  {
  }

  lemma CooldownOnlyMarks(cfg: Config, w: World, id: Id, ok: bool)
    ensures var w' := AuditCooldownStep(w, id, ok);
            (w'.policy == w.policy && w'.marks == w.marks)
            || (id in w.apcs && w.apcs[id].ACool? && w.apcs[id].snap.version == w.policy.version
                && w'.marks == w.marks + [CooldownStarted(w.apcs[id].d)]
                && w'.policy == Policy(w.policy.version + 1, Some(w.apcs[id].d), None))
  {
  }

  lemma StepKeepsSpacing(cfg: Config, w: World, e: Event)
    requires Safe(cfg, w) && SpacingKept(cfg, w)
    ensures SpacingKept(cfg, Next(cfg, w, e))
  {
    if e.PolicyEvaluate? {
      EvaluateKeepsSpacing(cfg, w, e.listOk, e.sample, e.matched, e.results);
    } else if e.PolicyCreate? {
      CreateKeepsSpacing(cfg, w, e.ok, e.id);
    } else if e.PolicyMark? {
      MarkKeepsSpacing(cfg, w, e.ok);
    } else if e.PolicyRead? {
      ReadKeepsSpacing(cfg, w);
    } else if e.PolicyCheckGate? || e.PolicyFinish? {
      FinishKeepsSpacing(cfg, w, e.ok);
    } else if ByAuditReconciler(e) || e.ClientUpdate? {
      AuditSideSpares(cfg, w, e);
      if e.AuditCooldown? {
        CooldownOnlyMarks(cfg, w, e.id, e.ok);
      }
    } else {
      EnvironmentKeepsSpacing(cfg, w, e);
    }
  }

  lemma {:induction false} RunKeepsSpacing(cfg: Config, w: World, es: seq<Event>)
    requires ValidConfig(cfg) && Init(w)
    ensures SpacingKept(cfg, Run(cfg, w, es))
  {
    if es != [] {
      RunKeepsSpacing(cfg, w, es[..|es| - 1]);
      RunKeepsSafe(cfg, w, es[..|es| - 1]);
      StepKeepsSpacing(cfg, Run(cfg, w, es[..|es| - 1]), es[|es| - 1]);
    }
  }

  /** Over every run, with arbitrary samples, lost writes and restarts, any two triggers are at least
      `duration` apart. */
  lemma {:induction false} TriggersADurationApart(cfg: Config, w: World, es: seq<Event>, i: nat, j: nat)
    requires ValidConfig(cfg) && Init(w)
    requires var marks := Run(cfg, w, es).marks;
             i < j < |marks| && marks[i].Triggered? && marks[j].Triggered?
    ensures var marks := Run(cfg, w, es).marks;
            marks[j].t - marks[i].t >= cfg.duration
  {
    RunKeepsSpacing(cfg, w, es);
  }

  // ---------------------------------------------------------------------------------------
  // After an ungated trigger whose status write landed
  // ---------------------------------------------------------------------------------------

  /** In the middle of nothing but triggers, position k is followed by one at least cooldown + duration
      later if its closing write landed. */
  ghost predicate CooledDown(cfg: Config, marks: seq<Mark>, landed: set<nat>) {
    && (forall i :: 0 <= i < |marks| ==> marks[i].Triggered?)
    && (forall k :: k in landed ==> 0 < k <= |marks|)
    && (forall k :: k in landed && k < |marks| ==> marks[k].t >= marks[k - 1].t + cfg.cooldown + cfg.duration)
  }

  /** Once the latest trigger's status landed, the stored policy carries its time, what a reconcile
      read is what is stored, and the window begins no earlier than the cooldown's end. */
  ghost predicate CooldownInvariant(cfg: Config, policy: Policy, ppc: PolicyPc, window: Option<int>, marks: seq<Mark>, landed: set<nat>) {
    && CooledDown(cfg, marks, landed)
    && (Firing(ppc) || (ppc.PFinish? && ppc.fired) ==> marks != [] && |marks| !in landed)
    && (ppc.PFinish? && ppc.fired ==> window.None? && ppc.snap.lastTriggeredAt == Some(marks[|marks| - 1].t))
    && (ppc.PCreate? ==> ppc.t == marks[|marks| - 1].t)
    && !ppc.PMark?
    && (!ppc.PIdle? && !(ppc.PFinish? && ppc.fired) ==> ppc.snap.lastTriggeredAt == policy.lastTriggeredAt)
    && (|marks| in landed ==>
          && policy.lastTriggeredAt == Some(marks[|marks| - 1].t)
          && (window.Some? ==> window.value >= marks[|marks| - 1].t + cfg.cooldown))
  }

  ghost predicate NoGateActivity(w: World) {
    forall id :: id in w.apcs ==> w.apcs[id].ADecide? || w.apcs[id].AReverted?
  }

  ghost predicate CooldownKept(cfg: Config, w: World) {
    CooldownInvariant(cfg, w.policy, w.ppc, w.window, w.marks, w.landed) && NoGateActivity(w)
  }

  lemma FiredKeepsCooldown(cfg: Config, w: World, w': World)
    requires SpacingKept(cfg, w) && CooldownKept(cfg, w) && w.ppc.PEvaluate? && FiredOrNot(cfg, w, w') && w'.ppc.PCreate?
    requires w'.policy == w.policy && w'.landed == w.landed && w'.apcs == w.apcs
    ensures CooldownKept(cfg, w')
  {
    assert w'.marks[..|w.marks|] == w.marks && w'.marks[|w.marks|] == Triggered(w.ppc.t);
    assert forall k :: k in w.landed ==> k <= |w.marks|;
    assert CooledDown(cfg, w'.marks, w'.landed);
  }

  lemma QuietKeepsCooldown(cfg: Config, w: World, w': World)
    requires SpacingKept(cfg, w) && CooldownKept(cfg, w) && w.ppc.PEvaluate? && FiredOrNot(cfg, w, w') && w'.ppc.PFinish?
    requires w'.policy == w.policy && w'.landed == w.landed && w'.apcs == w.apcs
    ensures CooldownKept(cfg, w')
  {
    assert |w'.marks| in w'.landed && w'.window.Some? ==> w'.window.value >= w'.marks[|w'.marks| - 1].t + cfg.cooldown;
  }

  lemma EvaluateKeepsCooldown(cfg: Config, w: World, listOk: bool, sample: Sample, matched: Option<seq<Target>>,
                              results: seq<Result<string>>)
    requires SpacingKept(cfg, w) && CooldownKept(cfg, w)
    ensures CooldownKept(cfg, PolicyEvaluateStep(cfg, w, listOk, sample, matched, results))
  {
    if w.ppc.PEvaluate? {
      EvaluationOutcome(cfg, w, listOk, sample, matched, results);
      var w' := PolicyEvaluateStep(cfg, w, listOk, sample, matched, results);
      if w' == w {
      } else if w'.ppc.PCreate? {
        FiredKeepsCooldown(cfg, w, w');
      } else {
        QuietKeepsCooldown(cfg, w, w');
      }
    }
  }

  lemma {:induction false} LastTriggerIsEnd(marks: seq<Mark>)
    requires marks != [] && marks[|marks| - 1].Triggered?
    ensures LastTrigger(marks) == |marks|
  {
  }

  lemma CreateKeepsCooldown(cfg: Config, w: World, ok: bool, id: Id)
    requires CooldownKept(cfg, w) && cfg.gate < 0
    ensures CooldownKept(cfg, PolicyCreateStep(cfg, w, ok, id))
  {
  }

  lemma FinishKeepsCooldown(cfg: Config, w: World, ok: bool)
    requires CooldownKept(cfg, w) && cfg.gate < 0
    ensures CooldownKept(cfg, PolicyFinishStep(cfg, w, ok))
  {
    if w.marks != [] {
      LastTriggerIsEnd(w.marks);
    }
  }

  lemma OtherPolicyStepsKeepCooldown(cfg: Config, w: World, e: Event)
    requires CooldownKept(cfg, w)
    requires e.PolicyRead? || e.PolicyCheckGate? || e.PolicyMark?
    ensures CooldownKept(cfg, Next(cfg, w, e))
  {
  }

  lemma EnvironmentKeepsCooldown(cfg: Config, w: World, e: Event)
    requires CooldownKept(cfg, w)
    requires e.Tick? || e.Restart? || e.TouchPolicy? || e.SinkWrite?
    ensures CooldownKept(cfg, Next(cfg, w, e))
  {
  }

  /** Without a gate no record is ever Pending, so no reconcile resolves one. */
  lemma AuditSideStaysQuiet(cfg: Config, w: World, e: Event)
    requires Safe(cfg, w) && NoGateActivity(w) && cfg.gate < 0
    requires ByAuditReconciler(e) || e.ClientUpdate?
    ensures NoGateActivity(Next(cfg, w, e))
  {
    var id := e.id;
    assert Safe1(cfg, w, id);
    forall other | other in Next(cfg, w, e).apcs && other != id
      ensures other in w.apcs && Next(cfg, w, e).apcs[other] == w.apcs[other]
    {
      OthersUntouched(cfg, w, e, other);
    }
  }

  lemma StepKeepsCooldown(cfg: Config, w: World, e: Event)
    requires Safe(cfg, w) && SpacingKept(cfg, w) && CooldownKept(cfg, w) && cfg.gate < 0
    ensures CooldownKept(cfg, Next(cfg, w, e))
  {
    if e.PolicyEvaluate? {
      EvaluateKeepsCooldown(cfg, w, e.listOk, e.sample, e.matched, e.results);
    } else if e.PolicyCreate? {
      CreateKeepsCooldown(cfg, w, e.ok, e.id);
    } else if e.PolicyFinish? {
      FinishKeepsCooldown(cfg, w, e.ok);
    } else if e.PolicyRead? || e.PolicyCheckGate? || e.PolicyMark? {
      OtherPolicyStepsKeepCooldown(cfg, w, e);
    } else if ByAuditReconciler(e) || e.ClientUpdate? {
      AuditSideSpares(cfg, w, e);
      AuditSideStaysQuiet(cfg, w, e);
      if e.AuditCooldown? {
        CooldownOnlyMarks(cfg, w, e.id, e.ok);
      }
    } else {
      EnvironmentKeepsCooldown(cfg, w, e);
    }
  }

  lemma {:induction false} RunKeepsCooldown(cfg: Config, w: World, es: seq<Event>)
    requires ValidConfig(cfg) && Init(w) && cfg.gate < 0
    ensures CooldownKept(cfg, Run(cfg, w, es))
  {
    if es != [] {
      RunKeepsCooldown(cfg, w, es[..|es| - 1]);
      RunKeepsSafe(cfg, w, es[..|es| - 1]);
      RunKeepsSpacing(cfg, w, es[..|es| - 1]);
      StepKeepsCooldown(cfg, Run(cfg, w, es[..|es| - 1]), es[|es| - 1]);
    }
  }

  /** Without a gate: if the status write that closed the k-th trigger landed, the next trigger comes
      at least cooldown + duration after it. */
  lemma {:induction false} UngatedCooldown(cfg: Config, w: World, es: seq<Event>, k: nat)
    requires ValidConfig(cfg) && Init(w) && cfg.gate < 0
    requires k in Run(cfg, w, es).landed && k < |Run(cfg, w, es).marks|
    ensures var marks := Run(cfg, w, es).marks;
            0 < k && marks[k - 1].Triggered? && marks[k].Triggered?
            && marks[k].t >= marks[k - 1].t + cfg.cooldown + cfg.duration
  {
    RunKeepsCooldown(cfg, w, es);
  }
}
