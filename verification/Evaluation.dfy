/**
 Exactly when an evaluation looks at the metric, and exactly when it triggers.
 */
module Evaluation {
  import opened Common
  import opened RateLimiter
  import opened Protocol
  import opened TriggerSpacing

  /** The cooldown is over at the time the reconcile took. */
  predicate Cooled(cfg: Config, w: World)
    requires w.ppc.PEvaluate?
  {
    w.ppc.snap.lastTriggeredAt.None? || w.ppc.t >= w.ppc.snap.lastTriggeredAt.value + cfg.cooldown
  }

  /** There is room for a trigger: by the remembered count while that is younger than a poll interval, and
      otherwise by the records there are. */
  predicate HasRoom(cfg: Config, w: World, listOk: bool)
    requires w.ppc.PEvaluate?
  {
    if w.cache.Some? && w.ppc.t < w.cache.value.queriedAt + cfg.pollInterval then w.cache.value.count < cfg.maxPerHour
    else listOk && |set id | id in w.audits && w.audits[id].audit.spec.triggeredAt > w.ppc.t - 3600| < cfg.maxPerHour
  }

  lemma RecentOnes(w: World, t: int)
    ensures RecentCount(w.audits, t - HOUR) == |set id | id in w.audits && w.audits[id].audit.spec.triggeredAt > t - 3600|
  {
    assert RecentIds(w.audits, t - HOUR) == set id | id in w.audits && w.audits[id].audit.spec.triggeredAt > t - 3600;
  }

  /** An evaluation triggers if and only if the cooldown is over, there is room, the value is past the
      threshold, it has been for the duration, and no more than maxResources objects match. */
  lemma TriggersExactly(cfg: Config, w: World, e: Event)
    requires e.PolicyEvaluate? && w.ppc.PEvaluate?
    ensures Fires(cfg, w, e) <==>
            && Cooled(cfg, w) && HasRoom(cfg, w, e.listOk)
            && e.sample.Value? && e.sample.crossed && w.ppc.t >= (if w.window.Some? then w.window.value else w.ppc.t) + cfg.duration
            && e.matched.Some? && |e.matched.value| <= cfg.maxResources && Confined(e.results, EffectiveTargets(e.matched.value, cfg.namespace))
  {
    RecentOnes(w, w.ppc.t);
  }

  /** What a reconcile that does not trigger remembers: behind a cooldown nothing new; without room no more
      than the count; and otherwise it has looked at the metric. */
  lemma LooksExactly(cfg: Config, w: World, e: Event)
    requires e.PolicyEvaluate? && w.ppc.PEvaluate?
    requires e.matched.Some? ==> Confined(e.results, EffectiveTargets(e.matched.value, cfg.namespace))
    ensures Next(cfg, w, e).window ==
            if !Cooled(cfg, w) || !HasRoom(cfg, w, e.listOk) || e.sample.ClientError? || e.sample.BadThreshold? then w.window
            else if e.sample.QueryFailed? || !e.sample.crossed then None
            else Some(if w.window.Some? then w.window.value else w.ppc.t)
  {
    RecentOnes(w, w.ppc.t);
  }

  /** The value is past the threshold, and was when the window opened a duration ago or earlier. */
  predicate Sustains(cfg: Config, w: World, e: Event)
    requires e.PolicyEvaluate? && w.ppc.PEvaluate?
  {
    e.sample.Value? && e.sample.crossed && w.window.Some? && w.window.value + cfg.duration <= w.ppc.t
  }

  /** In any reachable state: a count that is as old as the poll interval, or none at all, refuses nothing. If
      the records can be listed and there are fewer than the cap of the last hour, the evaluation looks at
      the metric, and what it remembers is their number as of now. */
  lemma {:induction false} StaleCountRefusesNothing(cfg: Config, w: World, es: seq<Event>, e: Event)
    requires ValidConfig(cfg) && Init(w) && e.PolicyEvaluate? && e.listOk
    requires e.matched.Some? ==> Confined(e.results, EffectiveTargets(e.matched.value, cfg.namespace))
    requires var v := Run(cfg, w, es);
             && v.ppc.PEvaluate? && Cooled(cfg, v) && (v.cache.Some? ==> v.cache.value.queriedAt + cfg.pollInterval <= v.ppc.t)
             && RecentCount(v.audits, v.ppc.t - HOUR) < cfg.maxPerHour
    ensures var v, v' := Run(cfg, w, es), Next(cfg, Run(cfg, w, es), e);
            && v'.cache == Some(Entry(v.ppc.t, RecentCount(v.audits, v.ppc.t - HOUR)))
            && (e.sample.Value? ==> (v'.window.Some? <==> e.sample.crossed))
            && (Sustains(cfg, v, e) && e.matched.Some? && |e.matched.value| <= cfg.maxResources ==> v'.ppc.PCreate?)
  {
    var v := Run(cfg, w, es);
    RecentOnes(v, v.ppc.t);
    LooksExactly(cfg, v, e);
    TriggersExactly(cfg, v, e);
    StaleCountIsReplaced(cfg, v, e);
  }

  lemma StaleCountIsReplaced(cfg: Config, v: World, e: Event)
    requires e.PolicyEvaluate? && e.listOk && v.ppc.PEvaluate? && Cooled(cfg, v)
    requires e.matched.Some? ==> Confined(e.results, EffectiveTargets(e.matched.value, cfg.namespace))
    requires v.cache.Some? ==> v.cache.value.queriedAt + cfg.pollInterval <= v.ppc.t
    ensures Next(cfg, v, e).cache == Some(Entry(v.ppc.t, RecentCount(v.audits, v.ppc.t - HOUR)))
  {
  }
}
