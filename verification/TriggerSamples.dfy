/**
 What the samples before a trigger looked like, over every run.
 */
module TriggerSamples {
  import opened Common
  import opened RateLimiter
  import opened Protocol
  import opened GateInvariant
  import opened TriggerSpacing

  /** The evaluation gets as far as asking for the metric: no cooldown, room under the cap. */
  predicate Asks(cfg: Config, w: World, e: Event) {
    e.PolicyEvaluate? && w.ppc.PEvaluate?
    && var snap, t := w.ppc.snap, w.ppc.t;
       var answer := CountStep(w.cache, t, cfg.pollInterval, if e.listOk then Some(RecentCount(w.audits, t - HOUR)) else None);
       (snap.lastTriggeredAt.Some? ==> t - snap.lastTriggeredAt.value >= cfg.cooldown)
       && answer.count.Some? && answer.count.value < cfg.maxPerHour
  }

  /** It compared a value, and the value was past the threshold. */
  predicate SawCrossing(cfg: Config, w: World, e: Event) {
    Asks(cfg, w, e) && e.sample.Value? && e.sample.crossed
  }

  /** It compared a value that was not past the threshold, or the query failed. */
  predicate SawOtherwise(cfg: Config, w: World, e: Event) {
    Asks(cfg, w, e) && (e.sample.QueryFailed? || (e.sample.Value? && !e.sample.crossed))
  }

  /** Event k saw the metric crossed and opened the window, which has been open ever since: every sample
      compared after it was crossed too, no query failed, and the operator did not go down. */
  ghost predicate CrossedSince(cfg: Config, w: World, es: seq<Event>, k: nat) {
    && k < |es| && SawCrossing(cfg, Run(cfg, w, es[..k]), es[k]) && Run(cfg, w, es[..k]).window == None
    && (forall j :: k < j < |es| ==> StillCrossed(cfg, Run(cfg, w, es[..j]), es[j], Run(cfg, w, es[..k]).ppc))
    && Run(cfg, w, es).window == Some(Run(cfg, w, es[..k]).ppc.t)
  }

  ghost predicate StillCrossed(cfg: Config, v: World, e: Event, opener: PolicyPc)
    requires opener.PEvaluate?
  {
    v.window == Some(opener.t) && !e.Restart? && !SawOtherwise(cfg, v, e)
  }

  // ---------------------------------------------------------------------------------------
  // How the window comes to be open
  // ---------------------------------------------------------------------------------------

  lemma EvaluationWindow(cfg: Config, w: World, e: Event)
    requires e.PolicyEvaluate?
    ensures var w' := Next(cfg, w, e);
            w'.window.Some? ==>
              (w'.window == w.window && !SawOtherwise(cfg, w, e))
              || (w.window == None && SawCrossing(cfg, w, e) && w'.window == Some(w.ppc.t))
  {
  }

  lemma RecordSideWindow(cfg: Config, w: World, e: Event)
    requires Safe(cfg, w) && (ByAuditReconciler(e) || e.ClientUpdate?)
    ensures Next(cfg, w, e).window == w.window
  {
    AuditSideSpares(cfg, w, e);
  }

  /** After any other step the window is as it was, or forgotten. */
  lemma OtherWindow(cfg: Config, w: World, e: Event)
    requires Safe(cfg, w) && !e.PolicyEvaluate?
    ensures Next(cfg, w, e).window.Some? ==> Next(cfg, w, e).window == w.window && !e.Restart?
  {
    if ByAuditReconciler(e) || e.ClientUpdate? {
      RecordSideWindow(cfg, w, e);
    }
  }

  lemma {:induction false} PrefixOfPrefix(es: seq<Event>, e: Event, k: nat)
    requires k <= |es|
    ensures (es + [e])[..k] == es[..k]
  {
  }

  lemma {:induction false} OneMoreCrossed(cfg: Config, w: World, es: seq<Event>, e: Event, k: nat)
    requires CrossedSince(cfg, w, es, k)
    requires Next(cfg, Run(cfg, w, es), e).window == Run(cfg, w, es).window
    requires !e.Restart? && !SawOtherwise(cfg, Run(cfg, w, es), e)
    ensures CrossedSince(cfg, w, es + [e], k)
  {
    var more := es + [e];
    assert more[..|more| - 1] == es;
    PrefixOfPrefix(es, e, k);
    assert more[k] == es[k];
    var opener := Run(cfg, w, es[..k]).ppc;
    forall j | k < j < |more|
      ensures StillCrossed(cfg, Run(cfg, w, more[..j]), more[j], opener)
    {
      PrefixOfPrefix(es, e, j);
      if j < |es| {
        assert more[j] == es[j] && StillCrossed(cfg, Run(cfg, w, es[..j]), es[j], opener);
      } else {
        assert es[..j] == es;
      }
    }
  }

  lemma {:induction false} JustCrossed(cfg: Config, w: World, es: seq<Event>, e: Event)
    requires var v := Run(cfg, w, es);
             v.window == None && SawCrossing(cfg, v, e) && Next(cfg, v, e).window == Some(v.ppc.t)
    ensures CrossedSince(cfg, w, es + [e], |es|)
  {
    assert (es + [e])[..|es|] == es;
  }

  /** An open window was opened by a crossing and has seen nothing else since. */
  lemma {:induction false} OpenWindowWasCrossed(cfg: Config, w: World, es: seq<Event>) returns (k: nat)
    requires ValidConfig(cfg) && Init(w) && Run(cfg, w, es).window.Some?
    ensures CrossedSince(cfg, w, es, k)
  {
    assert es != [];
    var init, e := es[..|es| - 1], es[|es| - 1];
    var v := Run(cfg, w, init);
    assert es == init + [e];
    RunKeepsSafe(cfg, w, init);
    if e.PolicyEvaluate? {
      EvaluationWindow(cfg, v, e);
    } else {
      OtherWindow(cfg, v, e);
    }
    if v.window == None {
      JustCrossed(cfg, w, init, e);
      k := |init|;
    } else {
      k := OpenWindowWasCrossed(cfg, w, init);
      OneMoreCrossed(cfg, w, init, e, k);
    }
  }

  // ---------------------------------------------------------------------------------------
  // Behind every trigger
  // ---------------------------------------------------------------------------------------

  lemma FiringSaw(cfg: Config, w: World, e: Event)
    requires Fires(cfg, w, e) && 0 < cfg.duration
    ensures SawCrossing(cfg, w, e) && w.window.Some? && w.ppc.t - w.window.value >= cfg.duration
  {
  }

  /** If an evaluation of a run triggers at t, an earlier one at or before t - duration saw the metric
      crossed, and so did every one since that compared a value; no query failed and the operator did
      not go down in between. */
  lemma {:induction false} TriggerWasSustained(cfg: Config, w: World, es: seq<Event>, e: Event) returns (k: nat)
    requires ValidConfig(cfg) && Init(w) && 0 < cfg.duration && Fires(cfg, Run(cfg, w, es), e)
    ensures CrossedSince(cfg, w, es, k) && Run(cfg, w, es[..k]).ppc.t <= Run(cfg, w, es).ppc.t - cfg.duration
    ensures SawCrossing(cfg, Run(cfg, w, es), e)
  {
    FiringSaw(cfg, Run(cfg, w, es), e);
    k := OpenWindowWasCrossed(cfg, w, es);
  }
}
