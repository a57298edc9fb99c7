/**
 The rolling cap over whole runs.
 */
module RollingCap {
  import opened Common
  import opened Executor
  import opened RateLimiter
  import opened Protocol
  import opened GateInvariant
  import opened GateSafety
  import opened TriggerSpacing

  /*
   With the cached count, any time to live, slow calls, restarts and a retention of at least an
   hour, no half-open hour holds more triggers' records than the policy allows, apart from those
   whose bump the operator skipped because marking the gate Pending failed.

   Why a list that runs long after its reconcile took its time does no harm: the window must have
   been open for `duration` before a trigger, so an earlier reconcile was let through, and what
   its list missed had left the trailing hour of every later reconcile.
  */

  /** The trigger time of every record ever created. */
  function Times(w: World): map<Id, int> {
    map id | id in w.ledger :: w.ledger[id].last.spec.triggeredAt
  }

  function Since(times: map<Id, int>, x: int): set<Id> {
    set id | id in times && times[id] > x
  }

  /** The records triggered in (x, y]. */
  function Between(times: map<Id, int>, x: int, y: int): set<Id> {
    set id | id in times && x < times[id] <= y
  }

  function Retention(cfg: Config): int {
    if cfg.retention < DEFAULT_RETENTION then cfg.retention else DEFAULT_RETENTION
  }

  // ---------------------------------------------------------------------------------------
  // The invariant
  // ---------------------------------------------------------------------------------------

  /** A record leaves the store only once its retention, counted from its creation, has passed. */
  ghost predicate Retained(cfg: Config, w: World, id: Id) {
    id in w.ledger ==>
      var t := w.ledger[id].last.spec.triggeredAt;
      && (id in w.audits ==> t <= w.audits[id].created)
      && (id !in w.audits ==> t + Retention(cfg) <= w.now)
      && (id in w.apcs && w.apcs[id].ADecide? ==> t <= w.apcs[id].base.created)
  }

  /** The reconcile in flight took its time after every trigger so far, and not in the future. */
  ghost predicate InOrder(times: map<Id, int>, now: int, ppc: PolicyPc) {
    && (forall id :: id in times ==> times[id] <= now)
    && (Timed(ppc) ==> ppc.t <= now && forall id :: id in times ==> times[id] <= ppc.t)
  }

  /** A cached count, with the bumps skipped or still due, is never below the exact number of records
      in the trailing hour, however long ago it was taken. */
  ghost predicate NeverUndercounts(times: map<Id, int>, now: int, ppc: PolicyPc, cache: Option<Entry>, skipped: nat) {
    cache.Some? ==> |Since(times, now - HOUR)| <= cache.value.count + skipped + (if ppc.PMark? then 1 else 0)
  }

  /** While the window is open there is room for another trigger, now and for the reconcile in flight:
      the reconcile that opened it was let through, and nothing has triggered since. */
  ghost predicate WindowLeavesRoom(times: map<Id, int>, now: int, ppc: PolicyPc, window: Option<int>, bound: int) {
    window.Some? && !Firing(ppc) ==>
      && |Since(times, now - HOUR)| < bound
      && (ppc.PCheckGate? || ppc.PEvaluate? ==> |Since(times, ppc.t - HOUR)| < bound)
  }

  ghost predicate AllCapped(times: map<Id, int>, bound: int) {
    forall id :: id in times ==> |Between(times, times[id] - HOUR, times[id])| <= bound
  }

  ghost predicate Counts(cfg: Config, times: map<Id, int>, now: int, ppc: PolicyPc, window: Option<int>, cache: Option<Entry>, skipped: nat) {
    && InOrder(times, now, ppc)
    && NeverUndercounts(times, now, ppc, cache, skipped)
    && WindowLeavesRoom(times, now, ppc, window, cfg.maxPerHour + skipped)
    && (ppc.PCreate? ==> |Since(times, ppc.t - HOUR)| < cfg.maxPerHour + skipped)
    && AllCapped(times, cfg.maxPerHour + skipped)
  }

  ghost predicate CountsKept(cfg: Config, w: World) {
    Counts(cfg, Times(w), w.now, w.ppc, w.window, w.cache, w.skipped)
  }

  ghost predicate CapInvariant(cfg: Config, w: World) {
    CountsKept(cfg, w) && forall id: Id :: Retained(cfg, w, id)
  }

  // ---------------------------------------------------------------------------------------
  // Records are kept long enough
  // ---------------------------------------------------------------------------------------

  lemma NewRecordRetained(cfg: Config, w: World, ok: bool, id: Id)
    requires Safe(cfg, w) && Retained(cfg, w, id)
    requires w.ppc.PCreate? ==> w.ppc.t <= w.now
    ensures Retained(cfg, PolicyCreateStep(cfg, w, ok, id), id)
  {
    assert Safe1(cfg, w, id);
  }

  lemma DecideRetains(cfg: Config, w: World, id: Id, policyOk: bool, deleteOk: bool)
    requires Safe(cfg, w) && Retained(cfg, w, id)
    ensures Retained(cfg, AuditDecideStep(cfg, w, id, policyOk, deleteOk), id)
  {
    assert Safe1(cfg, w, id);
  }

  lemma MarkRetains(cfg: Config, w: World, ok: bool, id: Id)
    requires Safe(cfg, w) && Retained(cfg, w, id)
    ensures Retained(cfg, PolicyMarkStep(w, ok), id)
  {
    assert Safe1(cfg, w, id);
  }

  lemma ReadRetains(cfg: Config, w: World, id: Id)
    requires Retained(cfg, w, id)
    ensures Retained(cfg, AuditReadStep(w, id), id)
  {
  }

  lemma ReleaseRetains(cfg: Config, w: World, id: Id, answer: PolicyAnswer, results: seq<Result<string>>)
    requires Safe(cfg, w) && Retained(cfg, w, id)
    ensures Retained(cfg, AuditReleaseStep(cfg, w, id, answer, results), id)
  {
    assert Safe1(cfg, w, id);
  }

  lemma ClientRetains(cfg: Config, w: World, e: Event)
    requires Safe(cfg, w) && e.ClientUpdate? && Retained(cfg, w, e.id)
    ensures Retained(cfg, Next(cfg, w, e), e.id)
  {
    assert Safe1(cfg, w, e.id);
  }

  lemma WriteSpecRetains(cfg: Config, w: World, id: Id, ok: bool)
    requires Safe(cfg, w) && Retained(cfg, w, id)
    ensures Retained(cfg, AuditWriteSpecStep(w, id, ok), id)
  {
    assert Safe1(cfg, w, id);
  }

  lemma WriteStatusRetains(cfg: Config, w: World, id: Id, d: int, ok: bool)
    requires Safe(cfg, w) && Retained(cfg, w, id)
    ensures Retained(cfg, AuditWriteStatusStep(w, id, d, ok), id)
  {
    assert Safe1(cfg, w, id);
  }

  lemma TailRetains(cfg: Config, w: World, e: Event, id: Id)
    requires Safe(cfg, w) && Retained(cfg, w, id)
    requires (e.AuditReadPolicy? || e.AuditCooldown?) && e.id == id
    ensures Retained(cfg, Next(cfg, w, e), id)
  {
    assert Safe1(cfg, w, id);
  }

  lemma WriteRevertedRetains(cfg: Config, w: World, id: Id, ok: bool)
    requires Safe(cfg, w) && Retained(cfg, w, id)
    ensures Retained(cfg, AuditWriteRevertedStep(w, id, ok), id)
  {
    assert Safe1(cfg, w, id);
  }

  lemma StepRetains(cfg: Config, w: World, e: Event, id: Id)
    requires Safe(cfg, w) && Retained(cfg, w, id) && CountsKept(cfg, w)
    ensures Retained(cfg, Next(cfg, w, e), id)
  {
    if e.Restart? {
    } else if Subject(w, e) != Some(id) {
      OthersUntouched(cfg, w, e, id);
    } else if e.PolicyCreate? {
      NewRecordRetained(cfg, w, e.ok, id);
    } else if e.AuditDecide? {
      DecideRetains(cfg, w, id, e.policyOk, e.deleteOk);
    } else if e.ClientUpdate? {
      ClientRetains(cfg, w, e);
    } else if e.PolicyMark? {
      MarkRetains(cfg, w, e.ok, id);
    } else if e.AuditRead? {
      ReadRetains(cfg, w, id);
    } else if e.AuditRelease? {
      ReleaseRetains(cfg, w, id, e.answer, e.results);
    } else if e.AuditWriteSpec? {
      WriteSpecRetains(cfg, w, id, e.ok);
    } else if e.AuditWriteStatus? {
      WriteStatusRetains(cfg, w, id, e.d, e.ok);
    } else if e.AuditWriteReverted? {
      WriteRevertedRetains(cfg, w, id, e.ok);
    } else {
      TailRetains(cfg, w, e, id);
    }
  }

  // ---------------------------------------------------------------------------------------
  // Counting
  // ---------------------------------------------------------------------------------------

  lemma LaterSinceIsSmaller(times: map<Id, int>, x: int, y: int)
    requires x <= y
    ensures |Since(times, y)| <= |Since(times, x)|
  {
    SubsetSize(Since(times, y), Since(times, x));
  }

  lemma OneMoreRecord(times: map<Id, int>, id: Id, t: int, x: int)
    requires id !in times
    ensures |Since(times[id := t], x)| <= |Since(times, x)| + 1
  {
    SubsetSize(Since(times[id := t], x), Since(times, x) + {id});
  }

  /** A list, however late, counts every record of the trailing hour as it is by then. */
  lemma ListCoversTheHour(cfg: Config, w: World)
    requires Safe(cfg, w) && w.ppc.PEvaluate? && w.ppc.t <= w.now && HOUR <= Retention(cfg)
    requires forall id: Id :: Retained(cfg, w, id)
    ensures |Since(Times(w), w.now - HOUR)| <= RecentCount(w.audits, w.ppc.t - HOUR)
  {
    var listed := RecentIds(w.audits, w.ppc.t - HOUR);
    forall id | id in Since(Times(w), w.now - HOUR)
      ensures id in listed
    {
      assert Safe1(cfg, w, id) && Retained(cfg, w, id);
    }
    SubsetSize(Since(Times(w), w.now - HOUR), listed);
  }

  // ---------------------------------------------------------------------------------------
  // Every step keeps it
  // ---------------------------------------------------------------------------------------

  lemma EvaluationCaches(cfg: Config, w: World, listOk: bool, sample: Sample, matched: Option<seq<Target>>,
                         results: seq<Result<string>>)
    requires w.ppc.PEvaluate?
    ensures var w' := PolicyEvaluateStep(cfg, w, listOk, sample, matched, results);
            && w'.ledger == w.ledger && w'.now == w.now && w'.skipped == w.skipped
            && (w'.cache == w.cache || w'.cache == Some(Entry(w.ppc.t, RecentCount(w.audits, w.ppc.t - HOUR))))
  {
  }

  /** What an evaluation leaves in the cache and the window, and what it must have read there. */
  lemma EvaluationCounted(cfg: Config, w: World, listOk: bool, sample: Sample, matched: Option<seq<Target>>,
                          results: seq<Result<string>>)
    requires w.ppc.PEvaluate? && 0 < cfg.duration
    ensures var w' := PolicyEvaluateStep(cfg, w, listOk, sample, matched, results);
            var t := w.ppc.t;
            || w' == w
            || (w'.ppc.PFinish? && (w'.window == w.window || w'.window == None))
            || (w'.ppc.PFinish? && w'.cache.Some? && w'.cache.value.count < cfg.maxPerHour)
            || (w'.ppc.PCreate? && w'.ppc.t == t && w.window.Some?)
  {
  }

  lemma EvaluateKeepsCounts(cfg: Config, w: World, listOk: bool, sample: Sample, matched: Option<seq<Target>>,
                            results: seq<Result<string>>)
    requires Safe(cfg, w) && CapInvariant(cfg, w) && HOUR <= Retention(cfg) && 0 < cfg.duration
    ensures CountsKept(cfg, PolicyEvaluateStep(cfg, w, listOk, sample, matched, results))
  {
    if w.ppc.PEvaluate? {
      EvaluationCaches(cfg, w, listOk, sample, matched, results);
      EvaluationCounted(cfg, w, listOk, sample, matched, results);
      ListCoversTheHour(cfg, w);
      var w' := PolicyEvaluateStep(cfg, w, listOk, sample, matched, results);
      CountsAfterEvaluation(cfg, Times(w), w.now, w.ppc, w.window, w.cache, w.skipped, w'.ppc, w'.window, w'.cache);
    }
  }

  lemma CountsAfterEvaluation(cfg: Config, times: map<Id, int>, now: int, ppc: PolicyPc, window: Option<int>,
                              cache: Option<Entry>, skipped: nat, ppc': PolicyPc, window': Option<int>,
                              cache': Option<Entry>)
    requires Counts(cfg, times, now, ppc, window, cache, skipped) && ppc.PEvaluate?
    requires cache' == cache || (cache'.Some? && |Since(times, now - HOUR)| <= cache'.value.count)
    requires (ppc' == ppc && window' == window)
             || (ppc'.PFinish? && (window' == window || window' == None))
             || (ppc'.PFinish? && cache'.Some? && cache'.value.count < cfg.maxPerHour)
             || (ppc'.PCreate? && ppc'.t == ppc.t && window.Some?)
    ensures Counts(cfg, times, now, ppc', window', cache', skipped)
  {
  }

  /** The newest record's hour holds no more than the evaluation allowed for, and one. */
  lemma CreatedWithinCap(times: map<Id, int>, id: Id, t: int, bound: nat)
    requires id !in times
    requires forall i :: i in times ==> times[i] <= t
    requires |Since(times, t - HOUR)| < bound
    requires AllCapped(times, bound)
    ensures AllCapped(times[id := t], bound)
  {
    var after := times[id := t];
    forall i | i in after
      ensures |Between(after, after[i] - HOUR, after[i])| <= bound
    {
      HourBounded(times, id, t, bound, i);
    }
  }

  lemma HourBounded(times: map<Id, int>, id: Id, t: int, bound: nat, i: Id)
    requires id !in times && (i in times || i == id)
    requires forall j :: j in times ==> times[j] <= t
    requires |Since(times, t - HOUR)| < bound
    requires i in times ==> |Between(times, times[i] - HOUR, times[i])| <= bound
    ensures var after := times[id := t];
            |Between(after, after[i] - HOUR, after[i])| <= bound
  {
    OneMoreRecord(times, id, t, t - HOUR);
    HourOf(times, id, t, i);
  }

  /** The new record's hour is the trailing one; the hour of an earlier record is what it was. */
  lemma HourOf(times: map<Id, int>, id: Id, t: int, i: Id)
    requires id !in times && (i in times || i == id)
    requires forall j :: j in times ==> times[j] <= t
    ensures var after := times[id := t];
            Between(after, after[i] - HOUR, after[i]) ==
            if after[i] == t then Since(after, t - HOUR) else Between(times, times[i] - HOUR, times[i])
  {
  }

  /** A new record, with its bump made or still due. */
  lemma CountsAfterCreate(cfg: Config, times: map<Id, int>, now: int, ppc: PolicyPc, window: Option<int>,
                          cache: Option<Entry>, skipped: nat, id: Id, ppc': PolicyPc, window': Option<int>,
                          cache': Option<Entry>)
    requires Counts(cfg, times, now, ppc, window, cache, skipped) && ppc.PCreate? && id !in times
    requires (ppc'.PMark? && ppc'.t == ppc.t && cache' == cache) || (ppc'.PFinish? && window' == None && cache' == Bump(cache, ppc.t))
    ensures Counts(cfg, times[id := ppc.t], now, ppc', window', cache', skipped)
  {
    CreatedWithinCap(times, id, ppc.t, cfg.maxPerHour + skipped);
    OneMoreRecord(times, id, ppc.t, now - HOUR);
  }

  lemma CreateOutcome(cfg: Config, w: World, ok: bool, id: Id)
    requires w.ppc.PCreate? && id !in w.ledger && id !in w.audits
    ensures var w' := PolicyCreateStep(cfg, w, ok, id);
            && w'.now == w.now && w'.skipped == w.skipped
            && (!ok ==> w'.ledger == w.ledger && w'.ppc.PFinish? && w'.window == None && w'.cache == w.cache)
            && (ok ==>
                  && id in w'.ledger && w'.ledger == w.ledger[id := w'.ledger[id]]
                  && w'.ledger[id].last.spec.triggeredAt == w.ppc.t
                  && ((w'.ppc.PMark? && w'.ppc.t == w.ppc.t && w'.cache == w.cache)
                      || (w'.ppc.PFinish? && w'.window == None && w'.cache == Bump(w.cache, w.ppc.t))))
  {
  }

  lemma CreatedKeepsCounts(cfg: Config, w: World, id: Id)
    requires CountsKept(cfg, w) && w.ppc.PCreate? && id !in w.ledger && id !in w.audits
    ensures CountsKept(cfg, PolicyCreateStep(cfg, w, true, id))
  {
    CreateOutcome(cfg, w, true, id);
    var w' := PolicyCreateStep(cfg, w, true, id);
    assert Times(w') == Times(w)[id := w.ppc.t];
    CountsAfterCreate(cfg, Times(w), w.now, w.ppc, w.window, w.cache, w.skipped, id, w'.ppc, w'.window, w'.cache);
  }

  lemma CreateKeepsCounts(cfg: Config, w: World, ok: bool, id: Id)
    requires CountsKept(cfg, w)
    ensures CountsKept(cfg, PolicyCreateStep(cfg, w, ok, id))
  {
    if w.ppc.PCreate? && id !in w.ledger && id !in w.audits {
      if ok {
        CreatedKeepsCounts(cfg, w, id);
      } else {
        CreateOutcome(cfg, w, ok, id);
        var w' := PolicyCreateStep(cfg, w, ok, id);
        CountsAfterOther(cfg, Times(w), w.now, w.ppc, w.window, w.cache, w.skipped, w'.now, w'.ppc, w'.window, w'.cache);
      }
    }
  }

  lemma CountsAfterMark(cfg: Config, times: map<Id, int>, now: int, ppc: PolicyPc, window: Option<int>,
                        cache: Option<Entry>, skipped: nat, ppc': PolicyPc)
    requires Counts(cfg, times, now, ppc, window, cache, skipped) && ppc.PMark? && ppc'.PFinish?
    ensures Counts(cfg, times, now, ppc', None, Bump(cache, ppc.t), skipped)
    ensures Counts(cfg, times, now, ppc', None, cache, skipped + 1)
  {
  }

  lemma MarkOutcome(cfg: Config, w: World, ok: bool)
    requires Safe(cfg, w) && w.ppc.PMark?
    ensures var w' := PolicyMarkStep(w, ok);
            && w'.now == w.now && w'.ppc.PFinish? && w'.window == None && Times(w') == Times(w)
            && ((w'.cache == Bump(w.cache, w.ppc.t) && w'.skipped == w.skipped) || (w'.cache == w.cache && w'.skipped == w.skipped + 1))
  {
    assert Safe1(cfg, w, w.ppc.id);
  }

  lemma MarkKeepsCounts(cfg: Config, w: World, ok: bool)
    requires Safe(cfg, w) && CapInvariant(cfg, w)
    ensures CountsKept(cfg, PolicyMarkStep(w, ok))
  {
    if w.ppc.PMark? {
      MarkOutcome(cfg, w, ok);
      CountsAfterMark(cfg, Times(w), w.now, w.ppc, w.window, w.cache, w.skipped, PolicyMarkStep(w, ok).ppc);
    }
  }

  /** Starting, holding for a gate, ending, going down: count and window can only be dropped. */
  lemma CountsAfterOther(cfg: Config, times: map<Id, int>, now: int, ppc: PolicyPc, window: Option<int>,
                         cache: Option<Entry>, skipped: nat, now': int, ppc': PolicyPc, window': Option<int>,
                         cache': Option<Entry>)
    requires Counts(cfg, times, now, ppc, window, cache, skipped) && now <= now'
    requires (cache' == cache || cache' == None) && (window' == window || window' == None)
    requires ppc' == ppc || ppc'.PIdle? || ppc'.PFinish?
             || ((ppc'.PCheckGate? || ppc'.PEvaluate?) && ppc'.t == if Timed(ppc) then ppc.t else now)
    requires Firing(ppc) ==> ppc' == ppc || window' == None
    requires ppc.PMark? ==> ppc' == ppc || cache' == None
    ensures Counts(cfg, times, now', ppc', window', cache', skipped)
  {
    LaterSinceIsSmaller(times, now - HOUR, now' - HOUR);
  }

  lemma LookOutcome(cfg: Config, w: World, e: Event)
    requires e.PolicyRead? || e.PolicyCheckGate? || e.PolicyFinish?
    ensures CountsUntouched(w, Next(cfg, w, e))
  {
  }

  /** Record, count and window stay; the policy reconcile starts, goes on or ends. */
  ghost predicate CountsUntouched(w: World, w': World) {
    && w'.ledger == w.ledger && w'.skipped == w.skipped && w'.now >= w.now && w'.cache == w.cache && w'.window == w.window
    && (w'.ppc == w.ppc || w'.ppc.PIdle? || w'.ppc.PFinish?
        || ((w'.ppc.PCheckGate? || w'.ppc.PEvaluate?) && w'.ppc.t == if Timed(w.ppc) then w.ppc.t else w.now))
    && (Firing(w.ppc) ==> w'.ppc == w.ppc)
  }

  lemma OtherOutcome(cfg: Config, w: World, e: Event)
    requires e.PolicyRead? || e.PolicyCheckGate? || e.PolicyFinish? || e.Tick? || e.TouchPolicy? || e.SinkWrite?
    ensures CountsUntouched(w, Next(cfg, w, e))
  {
    if e.PolicyRead? || e.PolicyCheckGate? || e.PolicyFinish? {
      LookOutcome(cfg, w, e);
    }
  }

  lemma OtherPolicyStepsKeepCounts(cfg: Config, w: World, e: Event)
    requires CapInvariant(cfg, w)
    requires e.PolicyRead? || e.PolicyCheckGate? || e.PolicyFinish? || e.Tick? || e.Restart? || e.TouchPolicy? || e.SinkWrite?
    ensures CountsKept(cfg, Next(cfg, w, e))
  {
    var w' := Next(cfg, w, e);
    if e.Restart? {
      assert Times(w') == Times(w);
    } else {
      OtherOutcome(cfg, w, e);
    }
    CountsAfterOther(cfg, Times(w), w.now, w.ppc, w.window, w.cache, w.skipped, w'.now, w'.ppc, w'.window, w'.cache);
  }

  lemma TimesKept(cfg: Config, w: World, e: Event)
    requires Safe(cfg, w) && Next(cfg, w, e).ledger.Keys == w.ledger.Keys
    ensures Times(Next(cfg, w, e)) == Times(w)
  {
    forall id | id in w.ledger {
      StepKeepsRecord(cfg, w, e, id);
    }
  }

  lemma OthersKeepCounts(cfg: Config, w: World, e: Event)
    requires Safe(cfg, w) && CapInvariant(cfg, w)
    requires ByAuditReconciler(e) || e.ClientUpdate?
    ensures CountsKept(cfg, Next(cfg, w, e))
  {
    AuditSideSpares(cfg, w, e);
    TimesKept(cfg, w, e);
  }

  lemma StepKeepsCap(cfg: Config, w: World, e: Event)
    requires Safe(cfg, w) && CapInvariant(cfg, w) && HOUR <= Retention(cfg) && 0 < cfg.duration
    ensures CapInvariant(cfg, Next(cfg, w, e))
  {
    forall id: Id {
      StepRetains(cfg, w, e, id);
    }
    match e
    case PolicyEvaluate(listOk, sample, matched, results) => EvaluateKeepsCounts(cfg, w, listOk, sample, matched, results);
    case PolicyCreate(ok, id) => CreateKeepsCounts(cfg, w, ok, id);
    case PolicyMark(ok) => MarkKeepsCounts(cfg, w, ok);
    case PolicyRead => OtherPolicyStepsKeepCounts(cfg, w, e);
    case PolicyCheckGate(_) => OtherPolicyStepsKeepCounts(cfg, w, e);
    case PolicyFinish(_) => OtherPolicyStepsKeepCounts(cfg, w, e);
    case Tick(_) => OtherPolicyStepsKeepCounts(cfg, w, e);
    case Restart => OtherPolicyStepsKeepCounts(cfg, w, e);
    case TouchPolicy => OtherPolicyStepsKeepCounts(cfg, w, e);
    case SinkWrite(_, _) => OtherPolicyStepsKeepCounts(cfg, w, e);
    case _ => OthersKeepCounts(cfg, w, e);
  }

  lemma {:induction false} RunKeepsCap(cfg: Config, w: World, es: seq<Event>)
    requires ValidConfig(cfg) && Init(w) && HOUR <= Retention(cfg) && 0 < cfg.duration
    ensures CapInvariant(cfg, Run(cfg, w, es))
  {
    if es == [] {
      assert Times(w) == map[];
    } else {
      var init := es[..|es| - 1];
      RunKeepsCap(cfg, w, init);
      RunKeepsSafe(cfg, w, init);
      StepKeepsCap(cfg, Run(cfg, w, init), es[|es| - 1]);
    }
  }

  // ---------------------------------------------------------------------------------------
  // Every window
  // ---------------------------------------------------------------------------------------

  lemma {:induction false} Latest(times: map<Id, int>, ids: set<Id>) returns (m: Id)
    requires ids != {} && forall id :: id in ids ==> id in times
    ensures m in ids && forall id :: id in ids ==> times[id] <= times[m]
    decreases |ids|
  {
    var first :| first in ids;
    m := first;
    var rest := ids - {first};
    assert forall id :: id in ids ==> id == first || id in rest;
    if rest != {} {
      var later := Latest(times, rest);
      m := if times[first] < times[later] then later else first;
    }
  }

  /** Bounding the hours that end at a trigger bounds every hour. */
  lemma EveryHourBounded(times: map<Id, int>, bound: nat, x: int)
    requires AllCapped(times, bound)
    ensures |Between(times, x, x + HOUR)| <= bound
  {
    var ids := Between(times, x, x + HOUR);
    if ids != {} {
      var m := Latest(times, ids);
      SubsetSize(ids, Between(times, times[m] - HOUR, times[m]));
    }
  }

  // ---------------------------------------------------------------------------------------
  // Triggers far enough apart
  // ---------------------------------------------------------------------------------------

  ghost predicate Apart(times: map<Id, int>, gap: int) {
    forall i, j :: i in times && j in times && i != j ==> times[i] - times[j] >= gap || times[j] - times[i] >= gap
  }

  ghost predicate NoneAfter(times: map<Id, int>, t: int) {
    forall id :: id in times ==> times[id] <= t
  }

  /** Records lie `duration` apart: a window opens after all of them and is forgotten with the next. */
  ghost predicate RecordsSpaced(cfg: Config, times: map<Id, int>, now: int, ppc: PolicyPc, window: Option<int>) {
    && InOrder(times, now, ppc)
    && Apart(times, cfg.duration)
    && (window.Some? && !Firing(ppc) ==> NoneAfter(times, window.value))
    && (ppc.PCreate? ==> NoneAfter(times, ppc.t - cfg.duration))
  }

  ghost predicate SpacedRecords(cfg: Config, w: World) {
    RecordsSpaced(cfg, Times(w), w.now, w.ppc, w.window)
  }

  lemma EvaluateKeepsSpaced(cfg: Config, w: World, e: Event)
    requires SpacedRecords(cfg, w) && e.PolicyEvaluate?
    ensures SpacedRecords(cfg, Next(cfg, w, e))
  {
    if w.ppc.PEvaluate? {
      EvaluationOutcome(cfg, w, e.listOk, e.sample, e.matched, e.results);
    }
  }

  lemma SpacedAfterCreate(cfg: Config, times: map<Id, int>, now: int, ppc: PolicyPc, window: Option<int>,
                          id: Id, ppc': PolicyPc, window': Option<int>)
    requires RecordsSpaced(cfg, times, now, ppc, window) && ppc.PCreate? && id !in times && 0 <= cfg.duration
    requires (ppc'.PMark? && ppc'.t == ppc.t) || (ppc'.PFinish? && window' == None)
    ensures RecordsSpaced(cfg, times[id := ppc.t], now, ppc', window')
  {
  }

  lemma CreatedKeepsSpaced(cfg: Config, w: World, id: Id)
    requires SpacedRecords(cfg, w) && 0 <= cfg.duration && w.ppc.PCreate? && id !in w.ledger && id !in w.audits
    ensures SpacedRecords(cfg, PolicyCreateStep(cfg, w, true, id))
  {
    CreateOutcome(cfg, w, true, id);
    var w' := PolicyCreateStep(cfg, w, true, id);
    assert Times(w') == Times(w)[id := w.ppc.t];
    SpacedAfterCreate(cfg, Times(w), w.now, w.ppc, w.window, id, w'.ppc, w'.window);
  }

  lemma CreateKeepsSpaced(cfg: Config, w: World, ok: bool, id: Id)
    requires SpacedRecords(cfg, w) && 0 <= cfg.duration
    ensures SpacedRecords(cfg, PolicyCreateStep(cfg, w, ok, id))
  {
    if w.ppc.PCreate? && id !in w.ledger && id !in w.audits {
      if ok {
        CreatedKeepsSpaced(cfg, w, id);
      } else {
        CreateOutcome(cfg, w, ok, id);
      }
    }
  }

  lemma SpacedAfterOther(cfg: Config, times: map<Id, int>, now: int, ppc: PolicyPc, window: Option<int>,
                         now': int, ppc': PolicyPc, window': Option<int>)
    requires RecordsSpaced(cfg, times, now, ppc, window) && now <= now'
    requires window' == window || window' == None
    requires ppc' == ppc || ppc'.PIdle? || ppc'.PFinish?
             || ((ppc'.PCheckGate? || ppc'.PEvaluate?) && ppc'.t == if Timed(ppc) then ppc.t else now)
    requires Firing(ppc) ==> ppc' == ppc || window' == None
    ensures RecordsSpaced(cfg, times, now', ppc', window')
  {
  }

  lemma OtherPolicyStepsKeepSpaced(cfg: Config, w: World, e: Event)
    requires SpacedRecords(cfg, w)
    requires e.PolicyRead? || e.PolicyCheckGate? || e.PolicyFinish? || e.Tick? || e.Restart? || e.TouchPolicy? || e.SinkWrite?
    ensures SpacedRecords(cfg, Next(cfg, w, e))
  {
    var w' := Next(cfg, w, e);
    if e.Restart? {
      assert Times(w') == Times(w);
    } else {
      OtherOutcome(cfg, w, e);
    }
    SpacedAfterOther(cfg, Times(w), w.now, w.ppc, w.window, w'.now, w'.ppc, w'.window);
  }

  lemma StepKeepsSpaced(cfg: Config, w: World, e: Event)
    requires Safe(cfg, w) && SpacedRecords(cfg, w)
    ensures SpacedRecords(cfg, Next(cfg, w, e))
  {
    if e.PolicyEvaluate? {
      EvaluateKeepsSpaced(cfg, w, e);
    } else if e.PolicyCreate? {
      CreateKeepsSpaced(cfg, w, e.ok, e.id);
    } else if e.PolicyMark? {
      if w.ppc.PMark? {
        MarkOutcome(cfg, w, e.ok);
      }
    } else if ByAuditReconciler(e) || e.ClientUpdate? {
      AuditSideSpares(cfg, w, e);
      TimesKept(cfg, w, e);
    } else {
      OtherPolicyStepsKeepSpaced(cfg, w, e);
    }
  }

  lemma {:induction false} RunKeepsSpaced(cfg: Config, w: World, es: seq<Event>)
    requires ValidConfig(cfg) && Init(w)
    ensures SpacedRecords(cfg, Run(cfg, w, es))
  {
    if es != [] {
      RunKeepsSpaced(cfg, w, es[..|es| - 1]);
      RunKeepsSafe(cfg, w, es[..|es| - 1]);
      StepKeepsSpaced(cfg, Run(cfg, w, es[..|es| - 1]), es[|es| - 1]);
    }
  }

  /** n records a gap apart span at least n - 1 gaps. */
  lemma {:induction false} SpanOfSpaced(times: map<Id, int>, gap: int, ids: set<Id>, x: int, y: int)
    requires Apart(times, gap) && 0 < gap && ids != {} && forall id :: id in ids ==> id in times && x < times[id] <= y
    ensures (|ids| - 1) * gap < y - x
    decreases |ids|
  {
    var m := Latest(times, ids);
    var rest := ids - {m};
    if rest == {} {
      assert ids == {m};
    } else {
      SpanOfSpaced(times, gap, rest, x, times[m] - gap);
      OneGapMore(|rest|, gap);
    }
  }

  lemma OneGapMore(n: int, gap: int)
    ensures n * gap == (n - 1) * gap + gap
  {
  }

  lemma MoreGaps(a: int, b: int, gap: int)
    requires 0 < gap
    ensures b <= a ==> b * gap <= a * gap
  {
    if b <= a {
      assert a * gap == b * gap + (a - b) * gap;
    }
  }

  lemma SpacedHourBounded(times: map<Id, int>, gap: int, bound: nat, x: int)
    requires Apart(times, gap) && 0 < gap && HOUR <= bound * gap
    ensures |Between(times, x, x + HOUR)| <= bound
  {
    var ids := Between(times, x, x + HOUR);
    if ids != {} {
      SpanOfSpaced(times, gap, ids, x, x + HOUR);
      MoreGaps(|ids| - 1, bound, gap);
    }
  }

  // ---------------------------------------------------------------------------------------
  // The rolling cap
  // ---------------------------------------------------------------------------------------

  /** What keeps the cap: records outlive the hour, or the spacing of triggers leaves no room for more. */
  ghost predicate CapGuarded(cfg: Config) {
    HOUR <= cfg.retention || HOUR <= cfg.maxPerHour * cfg.duration
  }

  lemma {:induction false} RollingCapHolds(cfg: Config, w: World, es: seq<Event>, x: int)
    requires ValidConfig(cfg) && Init(w) && CapGuarded(cfg) && 0 < cfg.duration && 0 <= cfg.maxPerHour
    ensures var w' := Run(cfg, w, es);
            |Between(Times(w'), x, x + HOUR)| <= cfg.maxPerHour + w'.skipped
  {
    if HOUR <= cfg.retention {
      RunKeepsCap(cfg, w, es);
      EveryHourBounded(Times(Run(cfg, w, es)), cfg.maxPerHour + Run(cfg, w, es).skipped, x);
    } else {
      RunKeepsSpaced(cfg, w, es);
      SpacedHourBounded(Times(Run(cfg, w, es)), cfg.duration, cfg.maxPerHour, x);
    }
  }

  /** A bump is skipped only where marking a new gate Pending failed, so a policy without a gate
      never exceeds its cap. */
  lemma {:induction false} UngatedNeverSkips(cfg: Config, w: World, es: seq<Event>)
    requires ValidConfig(cfg) && Init(w) && cfg.gate < 0 && 0 < cfg.duration
    ensures Run(cfg, w, es).skipped == 0 && !Run(cfg, w, es).ppc.PMark?
  {
    if es != [] {
      var init, e := es[..|es| - 1], es[|es| - 1];
      UngatedNeverSkips(cfg, w, init);
      RunKeepsSafe(cfg, w, init);
      if ByAuditReconciler(e) || e.ClientUpdate? {
        AuditSideSpares(cfg, Run(cfg, w, init), e);
      } else if e.PolicyEvaluate? {
        if Run(cfg, w, init).ppc.PEvaluate? {
          EvaluationCaches(cfg, Run(cfg, w, init), e.listOk, e.sample, e.matched, e.results);
          EvaluationCounted(cfg, Run(cfg, w, init), e.listOk, e.sample, e.matched, e.results);
        }
      } else {
        SkipsOnlyInMark(cfg, Run(cfg, w, init), e);
      }
    }
  }

  lemma SkipsOnlyInMark(cfg: Config, w: World, e: Event)
    requires !w.ppc.PMark? && cfg.gate < 0
    requires !ByAuditReconciler(e) && !e.ClientUpdate? && !e.PolicyEvaluate?
    ensures Next(cfg, w, e).skipped == w.skipped && !Next(cfg, w, e).ppc.PMark?
  {
  }

  lemma {:induction false} UngatedCapIsExact(cfg: Config, w: World, es: seq<Event>, x: int)
    requires ValidConfig(cfg) && Init(w) && CapGuarded(cfg) && 0 < cfg.duration && 0 <= cfg.maxPerHour && cfg.gate < 0
    ensures |Between(Times(Run(cfg, w, es)), x, x + HOUR)| <= cfg.maxPerHour
  {
    RollingCapHolds(cfg, w, es, x);
    UngatedNeverSkips(cfg, w, es);
  }
}
